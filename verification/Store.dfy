/**
  The findings table and its full-text index.  Text columns are token sequences; the index is the
  multiset of (term, row id) postings that the insert, delete and update triggers maintain.
 */
module Store {
  import opened Options

  type Id = nat

  type Postings = multiset<(string, Id)>

  datatype Row = Row(
    run: Id,
    topic: Id,
    url: string,
    title: seq<string>,
    author: seq<string>,
    content: seq<string>,
    summary: seq<string>,
    engagement: Option<int>,
    sightings: nat,
    dismissed: bool)

  type Rows = map<Id, Row>

  function Tokens(row: Row): seq<string> {
    row.content + row.summary + row.title + row.author
  }

  // ---------------------------------------------------------------- the triggers and the index

  function PostingsOf(id: Id, tokens: seq<string>): Postings {
    if tokens == [] then multiset{}
    else PostingsOf(id, tokens[..|tokens| - 1]) + multiset{(tokens[|tokens| - 1], id)}
  }

  lemma {:induction false} PostingsCount(id: Id, tokens: seq<string>, term: string, other: Id)
    ensures PostingsOf(id, tokens)[(term, other)] == if other == id then multiset(tokens)[term] else 0
  {
    if tokens != [] {
      var n := |tokens| - 1;
      PostingsCount(id, tokens[..n], term, other);
      assert tokens == tokens[..n] + [tokens[n]];
    }
  }

  /** The `findings_ai` trigger. */
  function AfterInsert(postings: Postings, id: Id, row: Row): Postings {
    postings + PostingsOf(id, Tokens(row))
  }

  /** The `findings_ad` trigger. */
  function AfterDelete(postings: Postings, id: Id, row: Row): Postings {
    postings - PostingsOf(id, Tokens(row))
  }

  /** The `findings_au` trigger. */
  function AfterUpdate(postings: Postings, id: Id, before: Row, after: Row): Postings {
    AfterInsert(AfterDelete(postings, id, before), id, after)
  }

  function Expected(rows: Rows, term: string, id: Id): nat {
    if id in rows then multiset(Tokens(rows[id]))[term] else 0
  }

  ghost predicate Indexed(rows: Rows, postings: Postings) {
    forall term, id :: postings[(term, id)] == Expected(rows, term, id)
  }

  lemma InsertKeepsIndex(rows: Rows, postings: Postings, id: Id, row: Row)
    requires Indexed(rows, postings) && id !in rows
    ensures Indexed(rows[id := row], AfterInsert(postings, id, row))
  {
    forall term, other
      ensures AfterInsert(postings, id, row)[(term, other)] == Expected(rows[id := row], term, other)
    {
      PostingsCount(id, Tokens(row), term, other);
      assert postings[(term, other)] == Expected(rows, term, other);
    }
  }

  lemma DeleteKeepsIndex(rows: Rows, postings: Postings, id: Id)
    requires Indexed(rows, postings) && id in rows
    ensures Indexed(rows - {id}, AfterDelete(postings, id, rows[id]))
  {
    var gone := PostingsOf(id, Tokens(rows[id]));
    forall term, other ensures (postings - gone)[(term, other)] == Expected(rows - {id}, term, other) {
      PostingsCount(id, Tokens(rows[id]), term, other);
      CountAfterDelete(postings, gone, (term, other));
      assert postings[(term, other)] == Expected(rows, term, other);
    }
  }

  lemma CountAfterDelete(postings: Postings, gone: Postings, p: (string, Id))
    ensures (postings - gone)[p] == if postings[p] >= gone[p] then postings[p] - gone[p] else 0
  {
  }

  lemma UpdateKeepsIndex(rows: Rows, postings: Postings, id: Id, row: Row)
    requires Indexed(rows, postings) && id in rows
    ensures Indexed(rows[id := row], AfterUpdate(postings, id, rows[id], row))
  {
    DeleteKeepsIndex(rows, postings, id);
    InsertKeepsIndex(rows - {id}, AfterDelete(postings, id, rows[id]), id, row);
    assert (rows - {id})[id := row] == rows[id := row];
  }

  /** A one-term query against the index, joined with the table. */
  ghost function Query(rows: Rows, postings: Postings, term: string): set<Id> {
    set id | id in rows && (term, id) in postings
  }

  /** A row is found by the terms of its four text columns, and not by its URL. */
  predicate Mentions(row: Row, term: string) {
    term in row.title || term in row.author || term in row.content || term in row.summary
  }

  /** The same query answered by reading every row. */
  ghost function Scan(rows: Rows, term: string): set<Id> {
    set id | id in rows && Mentions(rows[id], term)
  }

  /** An index that the triggers kept answers every term query as a full scan would, with no stale postings. */
  lemma IndexAnswersAsScan(rows: Rows, postings: Postings, term: string)
    requires Indexed(rows, postings)
    ensures Query(rows, postings, term) == Scan(rows, term)
    ensures forall id :: (term, id) in postings ==> id in rows
  {
    forall id ensures (term, id) in postings <==> id in rows && Mentions(rows[id], term) {
      assert postings[(term, id)] == Expected(rows, term, id);
    }
  }

  // ---------------------------------------------------------------- sightings

  datatype Item = Item(
    url: string,
    title: seq<string>,
    author: seq<string>,
    content: seq<string>,
    summary: seq<string>,
    engagement: Option<int>)

  function Max(a: int, b: int): int {
    if a >= b then a else b
  }

  function OrZero(e: Option<int>): int {
    if e.Some? then e.value else 0
  }

  /** The rows, and for each of them the engagement figures of all its sightings, oldest first. */
  datatype Book = Book(rows: Rows, seen: map<Id, seq<Option<int>>>)

  predicate HasUrl(rows: Rows, url: string) {
    exists id :: id in rows && rows[id].url == url
  }

  ghost predicate UrlsUnique(rows: Rows) {
    forall i, j | i in rows && j in rows && rows[i].url == rows[j].url :: i == j
  }

  ghost function IdOf(rows: Rows, url: string): (id: Id)
    requires HasUrl(rows, url)
    ensures id in rows && rows[id].url == url
  {
    var id :| id in rows && rows[id].url == url;
    id
  }

  lemma MaxExists(ids: set<Id>)
    requires ids != {}
    ensures exists m :: m in ids && forall x <- ids :: x <= m
  {
    var some :| some in ids;
    if ids != {some} {
      MaxExists(ids - {some});
      var m :| m in ids - {some} && forall x <- ids - {some} :: x <= m;
      var top := if some >= m then some else m;
      forall x <- ids ensures x <= top {
        assert x == some || x in ids - {some};
      }
      assert top in ids;
    }
  }

  /** The id SQLite gives the next row: one more than the largest in use. */
  function NextId(ids: set<Id>): (id: Id)
    ensures id !in ids
  {
    if ids == {} then 1
    else
      MaxExists(ids);
      var m :| m in ids && forall x <- ids :: x <= m;
      m + 1
  }

  function NewRow(run: Id, topic: Id, item: Item): Row {
    Row(run, topic, item.url, item.title, item.author, item.content, item.summary, item.engagement, 1, false)
  }

  function Resighted(row: Row, run: Id, engagement: int): Row {
    row.(sightings := row.sightings + 1, engagement := Some(Max(engagement, OrZero(row.engagement))), run := run)
  }

  /**
    One finding of a batch.  `runKnown` and `topicKnown` say whether the foreign keys resolve; a finding
    seen again without an engagement figure, or with a dangling key, raises and yields nothing.
   */
  ghost function SightOne(b: Book, run: Id, topic: Id, runKnown: bool, topicKnown: bool, item: Item): Option<Book> {
    if item.url == "" then Some(b)
    else if HasUrl(b.rows, item.url) then
      var id := IdOf(b.rows, item.url);
      if item.engagement.None? || !runKnown || id !in b.seen then None
      else Some(Book(b.rows[id := Resighted(b.rows[id], run, item.engagement.value)],
                     b.seen[id := b.seen[id] + [item.engagement]]))
    else if !runKnown || !topicKnown then None
    else
      var id := NextId(b.rows.Keys);
      Some(Book(b.rows[id := NewRow(run, topic, item)], b.seen[id := [item.engagement]]))
  }

  ghost function SightAll(
    b: Book, run: Id, topic: Id, runKnown: bool, topicKnown: bool, items: seq<Item>): Option<Book>
  {
    if items == [] then Some(b)
    else match SightAll(b, run, topic, runKnown, topicKnown, items[..|items| - 1])
      case None => None
      case Some(before) => SightOne(before, run, topic, runKnown, topicKnown, items[|items| - 1])
  }

  predicate SameText(a: Row, b: Row) {
    a.url == b.url && a.title == b.title && a.author == b.author && a.content == b.content && a.summary == b.summary
    && a.topic == b.topic && a.dismissed == b.dismissed
  }

  /** Item `k` is the first of the batch with the row's URL, and the row has its texts. */
  predicate FromFirst(row: Row, topic: Id, items: seq<Item>, k: nat) {
    && k < |items| && (forall j | 0 <= j < k :: items[j].url != row.url)
    && row.url == items[k].url != "" && row.title == items[k].title && row.author == items[k].author
    && row.content == items[k].content && row.summary == items[k].summary
    && row.topic == topic && !row.dismissed
  }

  /**
    A batch leaves the texts of the rows that were there as they were; every new row has the texts of the
    first item of the batch with its URL.
   */
  ghost predicate TextsAreOfFirst(b: Book, after: Book, topic: Id, items: seq<Item>) {
    && (forall id <- b.rows :: id in after.rows && SameText(after.rows[id], b.rows[id]))
    && (forall id <- after.rows | id !in b.rows :: exists k: nat :: FromFirst(after.rows[id], topic, items, k))
    && (forall item <- items | item.url != "" :: HasUrl(after.rows, item.url))
  }

  lemma {:induction false} BatchKeepsFirstTexts(
    b: Book, run: Id, topic: Id, runKnown: bool, topicKnown: bool, items: seq<Item>)
    requires SightAll(b, run, topic, runKnown, topicKnown, items).Some?
    ensures TextsAreOfFirst(b, SightAll(b, run, topic, runKnown, topicKnown, items).value, topic, items)
  {
    if items != [] {
      var n := |items| - 1;
      BatchKeepsFirstTexts(b, run, topic, runKnown, topicKnown, items[..n]);
      var before := SightAll(b, run, topic, runKnown, topicKnown, items[..n]).value;
      SightingIsTextStep(before, run, topic, runKnown, topicKnown, items[n]);
      OneKeepsFirstTexts(b, before, SightAll(b, run, topic, runKnown, topicKnown, items).value, topic, items);
    }
  }

  /** What one item does to the texts: nothing to a row that is there, and its own for a new row. */
  ghost predicate TextStep(before: Book, after: Book, topic: Id, item: Item) {
    && (forall id <- before.rows :: id in after.rows && SameText(after.rows[id], before.rows[id]))
    && (forall id <- after.rows | id !in before.rows ::
          FromFirst(after.rows[id], topic, [item], 0) && !HasUrl(before.rows, item.url))
    && (item.url != "" ==> HasUrl(after.rows, item.url))
  }

  lemma SightingIsTextStep(before: Book, run: Id, topic: Id, runKnown: bool, topicKnown: bool, item: Item)
    requires SightOne(before, run, topic, runKnown, topicKnown, item).Some?
    ensures TextStep(before, SightOne(before, run, topic, runKnown, topicKnown, item).value, topic, item)
  {
    var after := SightOne(before, run, topic, runKnown, topicKnown, item).value;
    if item.url != "" && !HasUrl(before.rows, item.url) {
      assert after.rows[NextId(before.rows.Keys)].url == item.url;
    }
  }

  /** The row an item is about belongs to the run of the batch from then on; no other row changes. */
  lemma SightingMovesToRun(before: Book, run: Id, topic: Id, runKnown: bool, topicKnown: bool, item: Item, id: Id)
    requires SightOne(before, run, topic, runKnown, topicKnown, item).Some?
    requires id in SightOne(before, run, topic, runKnown, topicKnown, item).value.rows
    ensures var after := SightOne(before, run, topic, runKnown, topicKnown, item).value;
            || (id in before.rows && after.rows[id] == before.rows[id])
            || (after.rows[id].url == item.url && after.rows[id].run == run)
  {
  }

  lemma FromFirstLater(row: Row, topic: Id, items: seq<Item>, k: nat)
    requires items != [] && FromFirst(row, topic, items[..|items| - 1], k)
    ensures FromFirst(row, topic, items, k)
  {
    assert forall j | 0 <= j <= k :: items[..|items| - 1][j] == items[j];
  }

  lemma FromLast(row: Row, rows: Rows, topic: Id, items: seq<Item>)
    requires items != [] && FromFirst(row, topic, [items[|items| - 1]], 0) && !HasUrl(rows, row.url)
    requires forall item <- items[..|items| - 1] | item.url != "" :: HasUrl(rows, item.url)
    ensures FromFirst(row, topic, items, |items| - 1)
  {
    forall j | 0 <= j < |items| - 1 ensures items[j].url != row.url {
      assert items[j] in items[..|items| - 1];
    }
  }

  lemma OneKeepsFirstTexts(b: Book, before: Book, after: Book, topic: Id, items: seq<Item>)
    requires items != [] && TextsAreOfFirst(b, before, topic, items[..|items| - 1])
    requires TextStep(before, after, topic, items[|items| - 1])
    ensures TextsAreOfFirst(b, after, topic, items)
  {
    var n, item := |items| - 1, items[|items| - 1];
    forall id <- after.rows | id !in b.rows ensures exists k: nat :: FromFirst(after.rows[id], topic, items, k) {
      if id in before.rows {
        var k: nat :| FromFirst(before.rows[id], topic, items[..n], k);
        FromFirstLater(after.rows[id], topic, items, k);
      } else {
        FromLast(after.rows[id], before.rows, topic, items);
      }
    }
    forall x <- items | x.url != "" ensures HasUrl(after.rows, x.url) {
      if x in items[..n] {
        var id :| id in before.rows && before.rows[id].url == x.url;
        assert id in after.rows && after.rows[id].url == x.url;
      } else {
        assert x == item;
      }
    }
  }

  /** The engagement a row holds after these sightings. */
  function Peak(seen: seq<Option<int>>): Option<int>
    requires |seen| > 0
  {
    if |seen| == 1 then seen[0]
    else Some(Max(OrZero(seen[|seen| - 1]), OrZero(Peak(seen[..|seen| - 1]))))
  }

  /** It is the largest figure seen, a missing one counting as zero. */
  lemma {:induction false} PeakIsMaximum(seen: seq<Option<int>>) returns (at: nat)
    requires |seen| > 0
    ensures forall k | 0 <= k < |seen| :: OrZero(seen[k]) <= OrZero(Peak(seen))
    ensures at < |seen| && OrZero(seen[at]) == OrZero(Peak(seen))
  {
    var n := |seen| - 1;
    if n == 0 {
      at := 0;
    } else {
      var k := PeakIsMaximum(seen[..n]);
      at := if OrZero(seen[n]) >= OrZero(seen[k]) then n else k;
      forall j | 0 <= j < n ensures OrZero(seen[j]) <= OrZero(Peak(seen)) {
        assert seen[j] == seen[..n][j];
      }
    }
  }

  /** Seen again, a finding has a figure: one it was seen with, or 0 when it first came without, and none is larger. */
  lemma PeakOfSeveral(seen: seq<Option<int>>)
    requires |seen| > 1
    ensures Peak(seen).Some? && forall k | 0 <= k < |seen| && seen[k].Some? :: seen[k].value <= Peak(seen).value
    ensures None in seen ==> 0 <= Peak(seen).value
    ensures Peak(seen) in seen || (Peak(seen) == Some(0) && None in seen)
  {
    var at := PeakIsMaximum(seen);
    assert seen[at] in seen;
    if None in seen {
      var k :| 0 <= k < |seen| && seen[k] == None;
      assert OrZero(seen[k]) <= OrZero(Peak(seen));
    }
    forall k | 0 <= k < |seen| && seen[k].Some? ensures seen[k].value <= Peak(seen).value {
      assert OrZero(seen[k]) <= OrZero(Peak(seen));
    }
  }

  /** Every row counts its sightings and holds the peak of their engagement figures. */
  ghost predicate Counted(b: Book) {
    && b.seen.Keys == b.rows.Keys
    && forall id <- b.rows ::
         |b.seen[id]| > 0 && b.rows[id].sightings == |b.seen[id]| && b.rows[id].engagement == Peak(b.seen[id])
  }

  ghost predicate Sound(b: Book) {
    Counted(b) && UrlsUnique(b.rows)
  }

  lemma SightOneKeepsSound(b: Book, run: Id, topic: Id, runKnown: bool, topicKnown: bool, item: Item)
    requires Sound(b)
    ensures var after := SightOne(b, run, topic, runKnown, topicKnown, item); after.Some? ==> Sound(after.value)
  {
    var after := SightOne(b, run, topic, runKnown, topicKnown, item);
    if after.Some? && item.url != "" && HasUrl(b.rows, item.url) {
      var id := IdOf(b.rows, item.url);
      var seen := b.seen[id] + [item.engagement];
      assert seen[..|b.seen[id]|] == b.seen[id];
    }
  }

  lemma {:induction false} SightAllKeepsSound(
    b: Book, run: Id, topic: Id, runKnown: bool, topicKnown: bool, items: seq<Item>)
    requires Sound(b)
    ensures var after := SightAll(b, run, topic, runKnown, topicKnown, items); after.Some? ==> Sound(after.value)
  {
    if items != [] {
      var n := |items| - 1;
      SightAllKeepsSound(b, run, topic, runKnown, topicKnown, items[..n]);
      var before := SightAll(b, run, topic, runKnown, topicKnown, items[..n]);
      if before.Some? {
        SightOneKeepsSound(before.value, run, topic, runKnown, topicKnown, items[n]);
      }
    }
  }

  /** A batch with resolving keys and engagement figures for all its findings is always stored. */
  lemma {:induction false} CompleteBatchIsStored(b: Book, run: Id, topic: Id, items: seq<Item>)
    requires Sound(b) && forall k | 0 <= k < |items| :: items[k].engagement.Some?
    ensures SightAll(b, run, topic, true, true, items).Some?
  {
    if items != [] {
      var n := |items| - 1;
      CompleteBatchIsStored(b, run, topic, items[..n]);
      SightAllKeepsSound(b, run, topic, true, true, items[..n]);
    }
  }

  // ---------------------------------------------------------------- the database

  datatype Change = Change(
    url: Option<string>,
    title: Option<seq<string>>,
    author: Option<seq<string>>,
    content: Option<seq<string>>,
    summary: Option<seq<string>>,
    dismissed: Option<bool>)

  function Or<T>(change: Option<T>, current: T): T {
    if change.Some? then change.value else current
  }

  function Changed(row: Row, c: Change): Row {
    row.(url := Or(c.url, row.url), title := Or(c.title, row.title), author := Or(c.author, row.author),
         content := Or(c.content, row.content), summary := Or(c.summary, row.summary),
         dismissed := Or(c.dismissed, row.dismissed))
  }

  /** A change gives each column it names its own new value, and leaves the others and the counts alone. */
  lemma ChangedColumns(row: Row, c: Change)
    ensures var after := Changed(row, c);
            && (c.url.Some? ==> after.url == c.url.value) && (c.url.None? ==> after.url == row.url)
            && (c.title.Some? ==> after.title == c.title.value) && (c.title.None? ==> after.title == row.title)
            && (c.author.Some? ==> after.author == c.author.value) && (c.author.None? ==> after.author == row.author)
            && (c.content.Some? ==> after.content == c.content.value)
            && (c.content.None? ==> after.content == row.content)
            && (c.summary.Some? ==> after.summary == c.summary.value)
            && (c.summary.None? ==> after.summary == row.summary)
            && (c.dismissed.Some? ==> after.dismissed == c.dismissed.value)
            && (c.dismissed.None? ==> after.dismissed == row.dismissed)
            && after.run == row.run && after.topic == row.topic && after.engagement == row.engagement
            && after.sightings == row.sightings
  {
  }

  predicate UrlFree(rows: Rows, id: Id, url: string) {
    forall other | other in rows && rows[other].url == url :: other == id
  }

  lemma ChangeKeepsSound(b: Book, id: Id, c: Change)
    requires Sound(b) && id in b.rows && UrlFree(b.rows, id, Changed(b.rows[id], c).url)
    ensures Sound(Book(b.rows[id := Changed(b.rows[id], c)], b.seen))
  {
  }

  function OfTopic(rows: Rows, topic: Id): set<Id> {
    set id | id in rows && rows[id].topic == topic
  }

  function RunsOf(runs: map<Id, Id>, topic: Id): set<Id> {
    set r | r in runs && runs[r] == topic
  }

  datatype Removal = NotFound | Removed | Blocked

  /** Foreign keys resolve, and no two topics share an id. */
  ghost predicate ReferencesHold(rows: Rows, runs: map<Id, Id>, topics: map<string, Id>) {
    && (forall id <- rows :: rows[id].run in runs && rows[id].topic in topics.Values)
    && (forall r <- runs :: runs[r] in topics.Values)
    && (forall x, y | x in topics && y in topics && topics[x] == topics[y] :: x == y)
  }

  /** Everything the database keeps about its findings. */
  ghost predicate Consistent(b: Book, postings: Postings, runs: map<Id, Id>, topics: map<string, Id>) {
    Indexed(b.rows, postings) && Sound(b) && ReferencesHold(b.rows, runs, topics)
  }

  ghost function Inserted(b: Book, run: Id, topic: Id, item: Item): Book {
    var id := NextId(b.rows.Keys);
    Book(b.rows[id := NewRow(run, topic, item)], b.seen[id := [item.engagement]])
  }

  lemma InsertIsConsistent(
    b: Book, postings: Postings, runs: map<Id, Id>, topics: map<string, Id>, run: Id, topic: Id, item: Item)
    requires Consistent(b, postings, runs, topics)
    requires item.url != "" && !HasUrl(b.rows, item.url) && run in runs && topic in topics.Values
    ensures SightOne(b, run, topic, true, true, item) == Some(Inserted(b, run, topic, item))
    ensures Consistent(Inserted(b, run, topic, item),
                       AfterInsert(postings, NextId(b.rows.Keys), NewRow(run, topic, item)), runs, topics)
  {
    SightOneKeepsSound(b, run, topic, true, true, item);
    InsertKeepsIndex(b.rows, postings, NextId(b.rows.Keys), NewRow(run, topic, item));
  }

  ghost function SeenAgain(b: Book, id: Id, run: Id, engagement: int): Book
    requires id in b.rows && id in b.seen
  {
    Book(b.rows[id := Resighted(b.rows[id], run, engagement)], b.seen[id := b.seen[id] + [Some(engagement)]])
  }

  lemma ResightIsConsistent(
    b: Book, postings: Postings, runs: map<Id, Id>, topics: map<string, Id>, run: Id, topic: Id, topicKnown: bool,
    item: Item, id: Id)
    requires Consistent(b, postings, runs, topics)
    requires item.url != "" && id in b.rows && b.rows[id].url == item.url && run in runs && item.engagement.Some?
    ensures id in b.seen
    ensures SightOne(b, run, topic, true, topicKnown, item) == Some(SeenAgain(b, id, run, item.engagement.value))
    ensures Consistent(SeenAgain(b, id, run, item.engagement.value),
                       AfterUpdate(postings, id, b.rows[id], Resighted(b.rows[id], run, item.engagement.value)),
                       runs, topics)
  {
    assert HasUrl(b.rows, item.url) && id == IdOf(b.rows, item.url);
    SightOneKeepsSound(b, run, topic, true, topicKnown, item);
    UpdateKeepsIndex(b.rows, postings, id, Resighted(b.rows[id], run, item.engagement.value));
  }

  lemma ChangeIsConsistent(
    b: Book, postings: Postings, runs: map<Id, Id>, topics: map<string, Id>, id: Id, c: Change)
    requires Consistent(b, postings, runs, topics)
    requires id in b.rows && UrlFree(b.rows, id, Changed(b.rows[id], c).url)
    ensures Consistent(Book(b.rows[id := Changed(b.rows[id], c)], b.seen),
                       AfterUpdate(postings, id, b.rows[id], Changed(b.rows[id], c)), runs, topics)
  {
    ChangeKeepsSound(b, id, c);
    UpdateKeepsIndex(b.rows, postings, id, Changed(b.rows[id], c));
  }

  lemma DeleteIsConsistent(b: Book, postings: Postings, runs: map<Id, Id>, topics: map<string, Id>, id: Id)
    requires Consistent(b, postings, runs, topics) && id in b.rows
    ensures Consistent(Book(b.rows - {id}, b.seen - {id}), AfterDelete(postings, id, b.rows[id]), runs, topics)
  {
    DeleteKeepsIndex(b.rows, postings, id);
  }

  class Database {
    var rows: Rows
    var postings: Postings
    var topics: map<string, Id>
    var runs: map<Id, Id>
    ghost var seen: map<Id, seq<Option<int>>>

    ghost predicate Valid()
      reads this
    {
      Consistent(Book(rows, seen), postings, runs, topics)
    }

    constructor ()
      ensures Valid() && rows == map[] && topics == map[] && runs == map[]
    {
      rows, postings, topics, runs, seen := map[], multiset{}, map[], map[], map[];
    }

    method AddTopic(name: string) returns (topic: Id)
      requires Valid()
      modifies this
      ensures Valid() && rows == old(rows) && runs == old(runs) && seen == old(seen)
      ensures if name in old(topics) then topics == old(topics) && topic == topics[name]
              else topic !in old(topics).Values && topics == old(topics)[name := topic]
    {
      if name in topics {
        return topics[name];
      }
      topic := NextId(topics.Values);
      topics := topics[name := topic];
      AddedTopicKeepsReferences(rows, runs, old(topics), name, topic);
    }

    method RecordRun(topic: Id) returns (run: Option<Id>)
      requires Valid()
      modifies this
      ensures Valid() && rows == old(rows) && topics == old(topics) && seen == old(seen)
      ensures run.Some? <==> topic in topics.Values
      ensures runs == if run.Some? then old(runs)[run.value := topic] else old(runs)
      ensures run.Some? ==> run.value !in old(runs)
    {
      if topic !in topics.Values {
        return None;
      }
      run := Some(NextId(runs.Keys));
      runs := runs[run.value := topic];
    }

    /** Puts the database back as it was before the transaction. */
    method Rollback(rows: Rows, postings: Postings, ghost seen: map<Id, seq<Option<int>>>)
      requires Consistent(Book(rows, seen), postings, runs, topics)
      modifies this
      ensures Valid() && this.rows == rows && this.postings == postings && this.seen == seen
      ensures topics == old(topics) && runs == old(runs)
    {
      this.rows, this.postings, this.seen := rows, postings, seen;
    }

    /** A batch is stored whole or, when one of its findings raises, not at all. */
    method StoreFindings(run: Id, topic: Id, items: seq<Item>) returns (counts: Option<(nat, nat)>)
      requires Valid()
      modifies this
      ensures Valid() && topics == old(topics) && runs == old(runs)
      ensures var after := SightAll(old(Book(rows, seen)), run, topic, run in runs, topic in topics.Values, items);
              && (counts.Some? <==> after.Some?)
              && Book(rows, seen) == (if after.Some? then after.value else old(Book(rows, seen)))
      ensures counts.None? ==> postings == old(postings)
      ensures counts.Some? ==>
                |rows| == |old(rows)| + counts.value.0 && counts.value.0 + counts.value.1 == WithUrl(items)
    {
      var savedRows, savedPostings := rows, postings;
      ghost var savedSeen := seen;
      counts := StoreEach(run, topic, items);
      if counts.None? {
        Rollback(savedRows, savedPostings, savedSeen);
      }
    }

    /** The loop over the findings of a batch, inside its transaction. */
    method StoreEach(run: Id, topic: Id, items: seq<Item>) returns (counts: Option<(nat, nat)>)
      requires Valid()
      modifies this
      ensures Valid() && topics == old(topics) && runs == old(runs)
      ensures SightAll(old(Book(rows, seen)), run, topic, run in runs, topic in topics.Values, items)
           == if counts.Some? then Some(Book(rows, seen)) else None
      ensures counts.Some? ==>
                |rows| == |old(rows)| + counts.value.0 && counts.value.0 + counts.value.1 == WithUrl(items)
    {
      ghost var start := Book(rows, seen);
      var newCount, updatedCount := 0, 0;
      assert items[..0] == [];
      for k := 0 to |items|
        invariant Valid() && topics == old(topics) && runs == old(runs)
        invariant Progress(start, run, topic, items[..k], newCount, updatedCount)
      {
        var stored := StoreNext(run, topic, items, k, start, newCount, updatedCount);
        if stored == Raised {
          return None;
        }
        newCount := newCount + if stored == Fresh then 1 else 0;
        updatedCount := updatedCount + if stored == Again then 1 else 0;
      }
      assert items[..|items|] == items;
      return Some((newCount, updatedCount));
    }

    /** These findings of a batch that began with the database at `start` are stored and counted. */
    ghost predicate Progress(start: Book, run: Id, topic: Id, stored: seq<Item>, newCount: nat, updatedCount: nat)
      reads this
    {
      && SightAll(start, run, topic, run in runs, topic in topics.Values, stored) == Some(Book(rows, seen))
      && |rows| == |start.rows| + newCount && newCount + updatedCount == WithUrl(stored)
    }

    /** One iteration of the loop, over finding `k`. */
    method StoreNext(
      run: Id, topic: Id, items: seq<Item>, k: nat, ghost start: Book, ghost newCount: nat, ghost updatedCount: nat)
      returns (stored: Stored)
      requires Valid() && k < |items| && Progress(start, run, topic, items[..k], newCount, updatedCount)
      modifies this
      ensures topics == old(topics) && runs == old(runs) && Valid()
      ensures stored == Raised ==> SightAll(start, run, topic, run in runs, topic in topics.Values, items) == None
      ensures stored != Raised ==>
                Progress(start, run, topic, items[..k + 1], newCount + if stored == Fresh then 1 else 0,
                         updatedCount + if stored == Again then 1 else 0)
    {
      SightAllSnoc(start, run, topic, run in runs, topic in topics.Values, items, k);
      stored := StoreOne(run, topic, items[k]);
      if stored == Raised {
        FailureIsFinal(start, run, topic, run in runs, topic in topics.Values, items, k + 1);
      }
    }

    method StoreOne(run: Id, topic: Id, item: Item) returns (stored: Stored)
      requires Valid()
      modifies this
      ensures topics == old(topics) && runs == old(runs) && Valid()
      ensures SightOne(old(Book(rows, seen)), run, topic, run in runs, topic in topics.Values, item)
           == if stored == Raised then None else Some(Book(rows, seen))
      ensures stored == Skipped <==> item.url == ""
      ensures |rows| == |old(rows)| + if stored == Fresh then 1 else 0
    {
      if item.url == "" {
        return Skipped;
      }
      if HasUrl(rows, item.url) {
        var id :| id in rows && rows[id].url == item.url;
        assert id == IdOf(rows, item.url);
        if item.engagement.None? || run !in runs {
          return Raised;
        }
        Resight(run, topic, item, id);
        return Again;
      }
      if run !in runs || topic !in topics.Values {
        return Raised;
      }
      Insert(run, topic, item);
      return Fresh;
    }

    /** The `UPDATE` of a finding seen again, with its trigger. */
    method Resight(run: Id, ghost topic: Id, item: Item, id: Id)
      requires Valid() && item.url != "" && id in rows && rows[id].url == item.url
      requires run in runs && item.engagement.Some?
      modifies this
      ensures topics == old(topics) && runs == old(runs) && Valid() && |rows| == |old(rows)|
      ensures SightOne(old(Book(rows, seen)), run, topic, true, topic in topics.Values, item) == Some(Book(rows, seen))
    {
      ResightIsConsistent(Book(rows, seen), postings, runs, topics, run, topic, topic in topics.Values, item, id);
      var row := Resighted(rows[id], run, item.engagement.value);
      postings := AfterUpdate(postings, id, rows[id], row);
      seen := seen[id := seen[id] + [Some(item.engagement.value)]];
      rows := rows[id := row];
    }

    /** The `INSERT` of a new finding, with its trigger. */
    method Insert(run: Id, topic: Id, item: Item)
      requires Valid() && item.url != "" && !HasUrl(rows, item.url) && run in runs && topic in topics.Values
      modifies this
      ensures topics == old(topics) && runs == old(runs) && Valid() && |rows| == |old(rows)| + 1
      ensures SightOne(old(Book(rows, seen)), run, topic, true, true, item) == Some(Book(rows, seen))
    {
      InsertIsConsistent(Book(rows, seen), postings, runs, topics, run, topic, item);
      var id := NextId(rows.Keys);
      var row := NewRow(run, topic, item);
      postings := AfterInsert(postings, id, row);
      rows := rows[id := row];
      seen := seen[id := [item.engagement]];
    }

    /** Fails, and changes nothing, when the new URL belongs to another finding. */
    method UpdateFinding(id: Id, change: Change) returns (ok: bool)
      requires Valid()
      modifies this
      ensures Valid() && topics == old(topics) && runs == old(runs) && seen == old(seen)
      ensures ok <==> id !in old(rows) || UrlFree(old(rows), id, Changed(old(rows)[id], change).url)
      ensures rows == if ok && id in old(rows) then old(rows)[id := Changed(old(rows)[id], change)] else old(rows)
    {
      if id !in rows {
        return true;
      }
      var row := Changed(rows[id], change);
      if !UrlFree(rows, id, row.url) {
        return false;
      }
      ChangeIsConsistent(Book(rows, seen), postings, runs, topics, id, change);
      postings := AfterUpdate(postings, id, rows[id], row);
      rows := rows[id := row];
      return true;
    }

    method DismissFinding(id: Id)
      requires Valid()
      modifies this
      ensures Valid() && topics == old(topics) && runs == old(runs) && seen == old(seen)
      ensures rows == if id in old(rows) then old(rows)[id := old(rows)[id].(dismissed := true)] else old(rows)
    {
      var change := Change(None, None, None, None, None, Some(true));
      assert id in rows ==> Changed(rows[id], change) == rows[id].(dismissed := true);
      var ok := UpdateFinding(id, change);
    }

    method DeleteFinding(id: Id)
      requires Valid()
      modifies this
      ensures Valid() && topics == old(topics) && runs == old(runs)
      ensures rows == old(rows) - {id} && seen == old(seen) - {id}
    {
      if id in rows {
        DeleteRow(id);
      } else {
        assert seen - {id} == seen && rows - {id} == rows;
      }
    }

    /** The `DELETE` of an existing finding, with its trigger. */
    method DeleteRow(id: Id)
      requires Valid() && id in rows
      modifies this
      ensures Valid() && topics == old(topics) && runs == old(runs)
      ensures rows == old(rows) - {id} && seen == old(seen) - {id}
    {
      DeleteIsConsistent(Book(rows, seen), postings, runs, topics, id);
      ghost var after := Book(rows - {id}, seen - {id});
      postings := AfterDelete(postings, id, rows[id]);
      rows := rows - {id};
      seen := seen - {id};
      assert Book(rows, seen) == after;
    }

    /** Deletes the given findings one by one, each through the delete trigger. */
    method DeleteAll(ids: set<Id>)
      requires Valid()
      modifies this
      ensures Valid() && topics == old(topics) && runs == old(runs)
      ensures rows == old(rows) - ids && seen == old(seen) - ids
    {
      var left := ids;
      while left != {}
        invariant Valid() && topics == old(topics) && runs == old(runs)
        invariant left <= ids && rows == old(rows) - (ids - left) && seen == old(seen) - (ids - left)
        decreases left
      {
        var id :| id in left;
        ghost var gone := ids - left;
        DeleteFinding(id);
        RemoveOneMore(old(rows), gone, id);
        RemoveOneMore(old(seen), gone, id);
        left := left - {id};
        assert ids - left == gone + {id};
      }
      assert ids - left == ids;
    }

    /**
      Removing a topic fails, and changes nothing, exactly when a finding of another topic was last
      sighted by one of its runs.
     */
    method RemoveTopic(name: string) returns (removal: Removal)
      requires Valid()
      modifies this
      ensures Valid()
      ensures removal == NotFound <==> name !in old(topics)
      ensures removal == Blocked <==> name in old(topics) && Borrowed(old(rows), old(runs), old(topics)[name])
      ensures removal != Removed ==>
                rows == old(rows) && postings == old(postings) && seen == old(seen)
                && topics == old(topics) && runs == old(runs)
      ensures removal == Removed ==>
                && rows == old(rows) - OfTopic(old(rows), old(topics)[name])
                && runs == old(runs) - RunsOf(old(runs), old(topics)[name]) && topics == old(topics) - {name}
    {
      if name !in topics {
        return NotFound;
      }
      var topic := topics[name];
      var savedRows, savedPostings := rows, postings;
      ghost var savedSeen := seen;
      DeleteAll(OfTopic(rows, topic));
      BorrowedAfterDeletion(savedRows, runs, topic);
      if exists id :: id in rows && rows[id].run in RunsOf(runs, topic) {
        Rollback(savedRows, savedPostings, savedSeen);
        return Blocked;
      }
      ForgetTopic(name);
      return Removed;
    }

    /** The last two `DELETE`s, of a topic no finding belongs to or depends on. */
    method ForgetTopic(name: string)
      requires Valid() && name in topics && OfTopic(rows, topics[name]) == {}
      requires forall id <- rows :: rows[id].run !in RunsOf(runs, topics[name])
      modifies this
      ensures Valid() && rows == old(rows)
      ensures runs == old(runs) - RunsOf(old(runs), old(topics)[name]) && topics == old(topics) - {name}
    {
      RemovedTopicKeepsReferences(rows, runs, topics, name);
      runs := runs - RunsOf(runs, topics[name]);
      topics := topics - {name};
    }
  }

  /** A finding of another topic was last sighted by a run of `topic`. */
  ghost predicate Borrowed(rows: Rows, runs: map<Id, Id>, topic: Id) {
    exists id :: id in rows && rows[id].topic != topic && rows[id].run in RunsOf(runs, topic)
  }

  lemma BorrowedAfterDeletion(rows: Rows, runs: map<Id, Id>, topic: Id)
    ensures var left := rows - OfTopic(rows, topic);
            && OfTopic(left, topic) == {}
            && (Borrowed(rows, runs, topic) <==> exists id :: id in left && left[id].run in RunsOf(runs, topic))
  {
    var left := rows - OfTopic(rows, topic);
    if Borrowed(rows, runs, topic) {
      var id :| id in rows && rows[id].topic != topic && rows[id].run in RunsOf(runs, topic);
      assert id in left && left[id].run in RunsOf(runs, topic);
    }
    if id :| id in left && left[id].run in RunsOf(runs, topic) {
      assert rows[id].topic != topic;
    }
  }

  lemma RemoveOneMore<T>(m: map<Id, T>, gone: set<Id>, id: Id)
    ensures m - gone - {id} == m - (gone + {id})
  {
  }

  lemma SightAllSnoc(b: Book, run: Id, topic: Id, runKnown: bool, topicKnown: bool, items: seq<Item>, k: nat)
    requires k < |items|
    ensures SightAll(b, run, topic, runKnown, topicKnown, items[..k + 1])
         == (match SightAll(b, run, topic, runKnown, topicKnown, items[..k])
             case None => None
             case Some(before) => SightOne(before, run, topic, runKnown, topicKnown, items[k]))
    ensures WithUrl(items[..k + 1]) == WithUrl(items[..k]) + if items[k].url == "" then 0 else 1
  {
    assert items[..k + 1][..k] == items[..k];
  }

  datatype Stored = Skipped | Fresh | Again | Raised

  function WithUrl(items: seq<Item>): nat {
    if items == [] then 0
    else WithUrl(items[..|items| - 1]) + if items[|items| - 1].url == "" then 0 else 1
  }

  lemma {:induction false} FailureIsFinal(
    b: Book, run: Id, topic: Id, runKnown: bool, topicKnown: bool, items: seq<Item>, k: nat)
    requires k <= |items| && SightAll(b, run, topic, runKnown, topicKnown, items[..k]).None?
    ensures SightAll(b, run, topic, runKnown, topicKnown, items).None?
    decreases |items|
  {
    if k == |items| {
      assert items[..k] == items;
    } else {
      var n := |items| - 1;
      assert items[..n][..k] == items[..k];
      FailureIsFinal(b, run, topic, runKnown, topicKnown, items[..n], k);
    }
  }

  lemma AddedTopicKeepsReferences(rows: Rows, runs: map<Id, Id>, topics: map<string, Id>, name: string, topic: Id)
    requires ReferencesHold(rows, runs, topics) && name !in topics && topic !in topics.Values
    ensures ReferencesHold(rows, runs, topics[name := topic])
  {
    forall t <- topics.Values ensures t in topics[name := topic].Values {
      var x :| x in topics && topics[x] == t;
      assert topics[name := topic][x] == t;
    }
  }

  lemma RemovedTopicKeepsReferences(rows: Rows, runs: map<Id, Id>, topics: map<string, Id>, name: string)
    requires ReferencesHold(rows, runs, topics) && name in topics && OfTopic(rows, topics[name]) == {}
    requires forall id <- rows :: rows[id].run !in RunsOf(runs, topics[name])
    ensures ReferencesHold(rows, runs - RunsOf(runs, topics[name]), topics - {name})
  {
    forall t <- topics.Values | t != topics[name] ensures t in (topics - {name}).Values {
      var x :| x in topics && topics[x] == t;
      assert (topics - {name})[x] == t;
    }
    forall id <- rows ensures rows[id].topic != topics[name] {
      assert id !in OfTopic(rows, topics[name]);
    }
  }
}
