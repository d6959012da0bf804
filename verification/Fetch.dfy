/**
  The chunking balance client: split-and-retry fetching, batching, and the counters of a scan.

  The remote is an arbitrary function of the number of the call and the addresses it names, so every
  call may be answered differently.
 */
module Fetch {
  import opened Options

  datatype Info = Info(finalBalance: int, nTx: int)

  type Payload = map<string, Info>

  datatype Answer = Served(payload: Payload) | Failed(error: string)

  type Remote = (nat, seq<string>) -> Answer

  /** One request that was not split again, with its answer. */
  datatype Leaf = Leaf(addresses: seq<string>, answer: Answer)

  /** How a chunk was settled: by its own request, or by the retry of its two halves after that failed. */
  datatype Fetched = One(leaf: Leaf) | Halves(left: Fetched, right: Fetched) {
    function Leaves(): seq<Leaf> {
      match this
      case One(leaf) => [leaf]
      case Halves(left, right) => left.Leaves() + right.Leaves()
    }

    function Calls(): nat {
      match this
      case One(_) => 1
      case Halves(left, right) => 1 + left.Calls() + right.Calls()
    }

    function Data(): Payload {
      match this
      case One(leaf) => if leaf.answer.Served? then leaf.answer.payload else map[]
      case Halves(left, right) => left.Data() + right.Data()
    }

    function Error(): Option<string> {
      match this
      case One(leaf) => if leaf.answer.Failed? then Some(leaf.answer.error) else None
      case Halves(left, right) => if left.Error().Some? then left.Error() else right.Error()
    }
  }

  /** Fetching `chunk` when `n` calls have been made before. */
  function FetchAll(remote: Remote, chunk: seq<string>, n: nat): Fetched
    decreases |chunk|
  {
    if remote(n, chunk).Failed? && |chunk| > 1 then
      var left := FetchAll(remote, chunk[..|chunk| / 2], n + 1);
      Halves(left, FetchAll(remote, chunk[|chunk| / 2..], n + 1 + left.Calls()))
    else One(Leaf(chunk, remote(n, chunk)))
  }

  function AddressesOf(leaves: seq<Leaf>): seq<string> {
    if leaves == [] then [] else leaves[0].addresses + AddressesOf(leaves[1..])
  }

  lemma Associate<T>(x: seq<T>, y: seq<T>, z: seq<T>)
    ensures (x + y) + z == x + (y + z)
  {
  }

  lemma {:induction false} AddressesOfConcat(a: seq<Leaf>, b: seq<Leaf>)
    ensures AddressesOf(a + b) == AddressesOf(a) + AddressesOf(b)
  {
    if a == [] {
      assert a + b == b;
    } else {
      AddressesOfConcat(a[1..], b);
      assert (a + b)[0] == a[0] && (a + b)[1..] == a[1..] + b;
      Associate(a[0].addresses, AddressesOf(a[1..]), AddressesOf(b));
    }
  }

  /** The leaves partition the chunk in order; a failed leaf names one address. */
  ghost predicate Settles(leaves: seq<Leaf>, chunk: seq<string>) {
    AddressesOf(leaves) == chunk && forall k | 0 <= k < |leaves| :: Final(leaves[k])
  }

  predicate Final(leaf: Leaf) {
    leaf.addresses != [] && (leaf.answer.Failed? ==> |leaf.addresses| == 1)
  }

  lemma SettlesConcat(x: seq<Leaf>, y: seq<Leaf>, left: seq<string>, right: seq<string>)
    requires Settles(x, left) && Settles(y, right)
    ensures Settles(x + y, left + right)
  {
    AddressesOfConcat(x, y);
  }

  lemma {:induction false} LeavesSettleChunk(remote: Remote, chunk: seq<string>, n: nat)
    requires chunk != []
    ensures Settles(FetchAll(remote, chunk, n).Leaves(), chunk)
    decreases |chunk|
  {
    if remote(n, chunk).Failed? && |chunk| > 1 {
      var a, b := chunk[..|chunk| / 2], chunk[|chunk| / 2..];
      var left := FetchAll(remote, a, n + 1);
      LeavesSettleChunk(remote, a, n + 1);
      LeavesSettleChunk(remote, b, n + 1 + left.Calls());
      SettlesConcat(left.Leaves(), FetchAll(remote, b, n + 1 + left.Calls()).Leaves(), a, b);
      assert chunk == a + b;
    } else {
      OneLeafSettles(chunk, remote(n, chunk));
    }
  }

  lemma OneLeafSettles(chunk: seq<string>, answer: Answer)
    requires chunk != [] && (answer.Failed? ==> |chunk| == 1)
    ensures Settles([Leaf(chunk, answer)], chunk)
  {
    assert [Leaf(chunk, answer)][1..] == [];
  }

  /** One call per leaf and one per split. */
  lemma {:induction false} CallsCountLeaves(r: Fetched)
    ensures |r.Leaves()| >= 1 && r.Calls() == 2 * |r.Leaves()| - 1
  {
    if r.Halves? {
      CallsCountLeaves(r.left);
      CallsCountLeaves(r.right);
    }
  }

  lemma {:induction false} FinalLeavesNameAddresses(leaves: seq<Leaf>)
    requires forall k | 0 <= k < |leaves| :: Final(leaves[k])
    ensures |leaves| <= |AddressesOf(leaves)|
  {
    if leaves != [] {
      FinalLeavesNameAddresses(leaves[1..]);
      assert Final(leaves[0]);
    }
  }

  /** A chunk of m addresses takes at most 2m - 1 calls. */
  lemma {:induction false} CallsAreBounded(remote: Remote, chunk: seq<string>, n: nat)
    requires chunk != []
    ensures FetchAll(remote, chunk, n).Calls() <= 2 * |chunk| - 1
  {
    var r := FetchAll(remote, chunk, n);
    CallsCountLeaves(r);
    LeavesSettleChunk(remote, chunk, n);
    FinalLeavesNameAddresses(r.Leaves());
  }

  /** How often `n` can be halved, rounding up, until one is left. */
  function Halvings(n: nat): nat {
    if n <= 1 then 0 else 1 + Halvings((n + 1) / 2)
  }

  lemma {:induction false} HalvingsGrow(m: nat, n: nat)
    requires m <= n
    ensures Halvings(m) <= Halvings(n)
    decreases n
  {
    if m > 1 {
      HalvingsGrow((m + 1) / 2, (n + 1) / 2);
    }
  }

  ghost predicate OnlyBadFails(remote: Remote, bad: string) {
    forall k: nat, chunk :: remote(k, chunk).Failed? <==> bad in chunk
  }

  /** One bad address costs two more calls per halving; without it one call serves the chunk. */
  lemma {:induction false} OneBadAddress(remote: Remote, chunk: seq<string>, n: nat, bad: string)
    requires OnlyBadFails(remote, bad) && forall i, j | 0 <= i < j < |chunk| :: chunk[i] != chunk[j]
    ensures bad !in chunk ==> FetchAll(remote, chunk, n).Calls() == 1
    ensures FetchAll(remote, chunk, n).Calls() <= 1 + 2 * Halvings(|chunk|)
    decreases |chunk|
  {
    if remote(n, chunk).Failed? && |chunk| > 1 {
      var mid := |chunk| / 2;
      var a, b := chunk[..mid], chunk[mid..];
      var left := FetchAll(remote, a, n + 1);
      OneBadAddress(remote, a, n + 1, bad);
      OneBadAddress(remote, b, n + 1 + left.Calls(), bad);
      NotInBoth(chunk, mid, bad);
      HalvingsGrow(|a|, (|chunk| + 1) / 2);
      HalvingsGrow(|b|, (|chunk| + 1) / 2);
    }
  }

  lemma NotInBoth(chunk: seq<string>, mid: nat, bad: string)
    requires mid <= |chunk| && forall i, j | 0 <= i < j < |chunk| :: chunk[i] != chunk[j]
    ensures !(bad in chunk[..mid] && bad in chunk[mid..])
  {
  }

  ghost predicate SomeFailed(leaves: seq<Leaf>) {
    exists k | 0 <= k < |leaves| :: leaves[k].answer.Failed?
  }

  lemma SomeFailedOfConcat(a: seq<Leaf>, b: seq<Leaf>)
    ensures SomeFailed(a + b) <==> SomeFailed(a) || SomeFailed(b)
  {
    if SomeFailed(a) {
      var k :| 0 <= k < |a| && a[k].answer.Failed?;
      assert (a + b)[k] == a[k];
    }
    if SomeFailed(b) {
      var k :| 0 <= k < |b| && b[k].answer.Failed?;
      assert (a + b)[|a| + k] == b[k];
    }
  }

  /** A chunk reports an error exactly when one of its leaves failed. */
  lemma {:induction false} ErrorIffLeafFailed(r: Fetched)
    ensures r.Error().Some? <==> SomeFailed(r.Leaves())
  {
    match r
    case One(leaf) => assert r.Leaves()[0] == leaf;
    case Halves(left, right) =>
      ErrorIffLeafFailed(left);
      ErrorIffLeafFailed(right);
      SomeFailedOfConcat(left.Leaves(), right.Leaves());
  }

  /** Leaf `k` is the first that failed, with the error `e`. */
  predicate FailsFirst(leaves: seq<Leaf>, k: nat, e: string) {
    && k < |leaves| && leaves[k].answer == Failed(e)
    && forall j | 0 <= j < k :: leaves[j].answer.Served?
  }

  /** The error a chunk reports is that of the first leaf that failed. */
  lemma {:induction false} FirstErrorIsReported(r: Fetched) returns (k: nat)
    requires r.Error().Some?
    ensures FailsFirst(r.Leaves(), k, r.Error().value)
  {
    match r
    case One(leaf) => k := 0;
    case Halves(left, right) =>
      ErrorIffLeafFailed(left);
      if left.Error().Some? {
        k := FirstErrorIsReported(left);
      } else {
        k := FirstErrorIsReported(right);
        k := |left.Leaves()| + k;
      }
  }

  /** Leaf `k` served the figure `info` for the address. */
  predicate ServedBy(leaves: seq<Leaf>, k: nat, a: string, info: Info)
    requires k < |leaves|
  {
    && leaves[k].answer.Served?
    && a in leaves[k].answer.payload && leaves[k].answer.payload[a] == info
  }

  ghost predicate ServedBySome(leaves: seq<Leaf>, a: string, info: Info) {
    exists k: nat | k < |leaves| :: ServedBy(leaves, k, a, info)
  }

  lemma ServedByConcat(x: seq<Leaf>, y: seq<Leaf>, a: string, info: Info)
    ensures ServedBySome(x + y, a, info) <==> ServedBySome(x, a, info) || ServedBySome(y, a, info)
  {
    if ServedBySome(x, a, info) {
      var k: nat :| k < |x| && ServedBy(x, k, a, info);
      assert ServedBy(x + y, k, a, info);
    }
    if ServedBySome(y, a, info) {
      var k: nat :| k < |y| && ServedBy(y, k, a, info);
      assert ServedBy(x + y, |x| + k, a, info);
    }
    if ServedBySome(x + y, a, info) {
      var k: nat :| k < |x + y| && ServedBy(x + y, k, a, info);
      assert if k < |x| then ServedBy(x, k, a, info) else ServedBy(y, k - |x|, a, info);
    }
  }

  /** The figure for the address, if there is one, was served by some leaf, and any leaf's figure is kept. */
  ghost predicate Sourced(data: Payload, leaves: seq<Leaf>, a: string) {
    && (a in data ==> ServedBySome(leaves, a, data[a]))
    && (forall info :: ServedBySome(leaves, a, info) ==> a in data)
  }

  /** Leaf `k` is the last that names the address. */
  ghost predicate ServesLast(leaves: seq<Leaf>, k: nat, a: string, info: Info) {
    && k < |leaves| && ServedBy(leaves, k, a, info)
    && forall j: nat, other | k < j < |leaves| :: !ServedBy(leaves, j, a, other)
  }

  /** Where several leaves name an address the last one's figure is kept. */
  lemma {:induction false} LastFigureIsKept(r: Fetched, a: string) returns (k: nat)
    requires a in r.Data()
    ensures ServesLast(r.Leaves(), k, a, r.Data()[a])
  {
    match r
    case One(leaf) => k := 0;
    case Halves(left, right) =>
      DataComesFromLeaves(right, a);
      if a in right.Data() {
        k := LastFigureIsKept(right, a);
        LastOfConcat(left.Leaves(), right.Leaves(), k, a, r.Data()[a]);
        k := |left.Leaves()| + k;
      } else {
        k := LastFigureIsKept(left, a);
        LastOfFirst(left.Leaves(), right.Leaves(), k, a, r.Data()[a]);
      }
  }

  lemma LastOfConcat(x: seq<Leaf>, y: seq<Leaf>, k: nat, a: string, info: Info)
    requires ServesLast(y, k, a, info)
    ensures ServesLast(x + y, |x| + k, a, info)
  {
    forall j: nat, other | |x| + k < j < |x + y| ensures !ServedBy(x + y, j, a, other) {
      assert !ServedBy(y, j - |x|, a, other);
    }
  }

  lemma LastOfFirst(x: seq<Leaf>, y: seq<Leaf>, k: nat, a: string, info: Info)
    requires ServesLast(x, k, a, info) && forall other :: !ServedBySome(y, a, other)
    ensures ServesLast(x + y, k, a, info)
  {
    forall j: nat, other | k < j < |x + y| ensures !ServedBy(x + y, j, a, other) {
      if j < |x| {
        assert !ServedBy(x, j, a, other);
      } else {
        assert !ServedBySome(y, a, other);
        assert ServedBy(x + y, j, a, other) ==> ServedBy(y, j - |x|, a, other);
      }
    }
  }

  lemma MergeIsSourced(left: Payload, x: seq<Leaf>, right: Payload, y: seq<Leaf>, a: string)
    requires Sourced(left, x, a) && Sourced(right, y, a)
    ensures Sourced(left + right, x + y, a)
  {
    forall info
      ensures ServedBySome(x + y, a, info) <==> ServedBySome(x, a, info) || ServedBySome(y, a, info)
    {
      ServedByConcat(x, y, a, info);
    }
  }

  lemma {:induction false} DataComesFromLeaves(r: Fetched, a: string)
    ensures Sourced(r.Data(), r.Leaves(), a)
  {
    match r
    case One(leaf) =>
      if a in r.Data() {
        assert ServedBy(r.Leaves(), 0, a, r.Data()[a]);
      }
    case Halves(left, right) =>
      DataComesFromLeaves(left, a);
      DataComesFromLeaves(right, a);
      MergeIsSourced(left.Data(), left.Leaves(), right.Data(), right.Leaves(), a);
  }

  // ---------------------------------------------------------------- results

  datatype AddressBalance =
    AddressBalance(address: string, balance: Option<int>, nTx: Option<int>, error: Option<string>)
  {
    predicate Known() {
      error.None? && balance.Some?
    }

    predicate IsFunded() {
      balance.Some? && balance.value != 0
    }

    predicate IsUsed() {
      nTx.Some? && nTx.value != 0
    }

    predicate IsHit(minSat: int) {
      IsFunded() && balance.value >= minSat
    }
  }

  function BalanceOf(address: string, data: Payload, error: Option<string>): AddressBalance {
    if address in data then
      AddressBalance(address, Some(data[address].finalBalance), Some(data[address].nTx), None)
    else if error.Some? then AddressBalance(address, None, None, error)
    else AddressBalance(address, Some(0), Some(0), None)
  }

  /** `list(dict.fromkeys(addresses))` */
  function Unique(addresses: seq<string>): seq<string> {
    if addresses == [] then []
    else
      var init, last := addresses[..|addresses| - 1], addresses[|addresses| - 1];
      Unique(init) + if last in init then [] else [last]
  }

  /** The position of the first occurrence. */
  function FirstAt(addresses: seq<string>, a: string): (i: nat)
    requires a in addresses
    ensures i < |addresses| && addresses[i] == a && a !in addresses[..i]
  {
    if addresses[0] == a then 0 else 1 + FirstAt(addresses[1..], a)
  }

  lemma {:induction false} FirstAtIsFirst(addresses: seq<string>, a: string, i: nat)
    requires i < |addresses| && addresses[i] == a && a !in addresses[..i]
    ensures FirstAt(addresses, a) == i
  {
    if i > 0 {
      assert addresses[0] == addresses[..i][0];
      assert addresses[..i][1..] == addresses[1..][..i - 1];
      FirstAtIsFirst(addresses[1..], a, i - 1);
    }
  }

  /** Each distinct address once, in the order of first occurrence. */
  lemma {:induction false} UniqueKeepsFirsts(addresses: seq<string>)
    ensures forall a :: a in Unique(addresses) <==> a in addresses
    ensures forall i, j | 0 <= i < j < |Unique(addresses)| ::
              FirstAt(addresses, Unique(addresses)[i]) < FirstAt(addresses, Unique(addresses)[j])
  {
    if addresses != [] {
      var n := |addresses| - 1;
      var init, last := addresses[..n], addresses[n];
      UniqueKeepsFirsts(init);
      assert addresses == init + [last];
      forall a <- init ensures FirstAt(addresses, a) == FirstAt(init, a) {
        var i := FirstAt(init, a);
        assert addresses[..i] == init[..i];
        FirstAtIsFirst(addresses, a, i);
      }
      if last !in init {
        FirstAtIsFirst(addresses, last, n);
      }
    }
  }

  /** `_chunked` */
  function Chunked(items: seq<string>, size: nat): (chunks: seq<seq<string>>)
    requires size > 0
    ensures forall chunk <- chunks :: 0 < |chunk| <= size
  {
    if items == [] then []
    else if |items| <= size then [items]
    else [items[..size]] + Chunked(items[size..], size)
  }

  function Flatten(chunks: seq<seq<string>>): seq<string> {
    if chunks == [] then [] else chunks[0] + Flatten(chunks[1..])
  }

  lemma {:induction false} ChunksRebuild(items: seq<string>, size: nat)
    requires size > 0
    ensures Flatten(Chunked(items, size)) == items
    decreases |items|
  {
    if items != [] {
      if |items| <= size {
        assert [items][1..] == [];
      } else {
        ChunksRebuild(items[size..], size);
        var chunks := Chunked(items, size);
        assert chunks == [items[..size]] + Chunked(items[size..], size);
        assert chunks[1..] == Chunked(items[size..], size);
        assert items == items[..size] + items[size..];
      }
    }
  }

  function ChunkResults(chunk: seq<string>, data: Payload, error: Option<string>): (results: seq<AddressBalance>)
    ensures |results| == |chunk| && forall i | 0 <= i < |chunk| :: results[i] == BalanceOf(chunk[i], data, error)
  {
    seq(|chunk|, i requires 0 <= i < |chunk| => BalanceOf(chunk[i], data, error))
  }

  datatype Scan = Scan(results: seq<AddressBalance>, calls: nat)

  /** The results of the chunks in order, when `n` calls have been made before. */
  function ScanChunks(remote: Remote, chunks: seq<seq<string>>, n: nat): Scan {
    if chunks == [] then Scan([], n)
    else
      var before := ScanChunks(remote, chunks[..|chunks| - 1], n);
      var last := chunks[|chunks| - 1];
      var fetched := FetchAll(remote, last, before.calls);
      Scan(before.results + ChunkResults(last, fetched.Data(), fetched.Error()), before.calls + fetched.Calls())
  }

  lemma ScanChunksStep(remote: Remote, chunks: seq<seq<string>>, k: nat, n: nat)
    requires k < |chunks|
    ensures var before := ScanChunks(remote, chunks[..k], n);
            var fetched := FetchAll(remote, chunks[k], before.calls);
            ScanChunks(remote, chunks[..k + 1], n)
              == Scan(before.results + ChunkResults(chunks[k], fetched.Data(), fetched.Error()),
                      before.calls + fetched.Calls())
  {
    assert chunks[..k + 1][..k] == chunks[..k];
  }

  function ScanBatch(remote: Remote, batch: seq<string>, size: nat, n: nat): Scan
    requires size > 0
  {
    ScanChunks(remote, Chunked(Unique(batch), size), n)
  }

  /** Full batches of `threshold` addresses, then what is left over. */
  function ScanAll(remote: Remote, addresses: seq<string>, size: nat, threshold: nat, n: nat): Scan
    requires size > 0 && threshold > 0
  {
    if addresses == [] then Scan([], n)
    else if |addresses| <= threshold then ScanBatch(remote, addresses, size, n)
    else
      var first := ScanBatch(remote, addresses[..threshold], size, n);
      var rest := ScanAll(remote, addresses[threshold..], size, threshold, first.calls);
      Scan(first.results + rest.results, rest.calls)
  }

  /** A finished fetch that began after `n` calls. */
  ghost predicate Outcome(data: Payload, error: Option<string>, calls: nat, fetched: Fetched, n: nat) {
    data == fetched.Data() && error == fetched.Error() && calls == n + fetched.Calls()
  }

  class BlockchainInfoClient {
    const remote: Remote
    const chunkSize: nat
    var calls: nat

    constructor (remote: Remote, chunkSize: nat)
      requires chunkSize >= 1
      ensures this.remote == remote && this.chunkSize == chunkSize && calls == 0
    {
      this.remote, this.chunkSize, calls := remote, chunkSize, 0;
    }

    method FetchWithFallback(chunk: seq<string>) returns (data: Payload, error: Option<string>)
      modifies this
      ensures Outcome(data, error, calls, FetchAll(remote, chunk, old(calls)), old(calls))
      decreases |chunk|, 1
    {
      ghost var n := calls;
      var answer := remote(calls, chunk);
      calls := calls + 1;
      if answer.Served? {
        return answer.payload, None;
      }
      if |chunk| > 1 {
        data, error := FetchHalves(chunk, n);
      } else {
        data, error := map[], Some(answer.error);
      }
    }

    /** The retry of a chunk whose own request, number `n`, failed. */
    method FetchHalves(chunk: seq<string>, ghost n: nat) returns (data: Payload, error: Option<string>)
      requires |chunk| > 1 && calls == n + 1 && remote(n, chunk).Failed?
      modifies this
      ensures Outcome(data, error, calls, FetchAll(remote, chunk, n), n)
      decreases |chunk|, 0
    {
      var mid := |chunk| / 2;
      ghost var l := FetchAll(remote, chunk[..mid], n + 1);
      ghost var r := FetchAll(remote, chunk[mid..], n + 1 + l.Calls());
      assert FetchAll(remote, chunk, n) == Halves(l, r);
      var left, leftError := FetchWithFallback(chunk[..mid]);
      var right, rightError := FetchWithFallback(chunk[mid..]);
      data := left + right;
      error := if leftError.Some? then leftError else rightError;
    }

    /** The results of one chunk, in its order. */
    method ChunkBalances(chunk: seq<string>, data: Payload, error: Option<string>)
      returns (results: seq<AddressBalance>)
      ensures results == ChunkResults(chunk, data, error)
    {
      results := [];
      var i := 0;
      while i < |chunk|
        invariant 0 <= i <= |chunk|
        invariant results == ChunkResults(chunk, data, error)[..i]
      {
        var address := chunk[i];
        var result: AddressBalance;
        if address !in data {
          if error.Some? {
            result := AddressBalance(address, None, None, error);
          } else {
            result := AddressBalance(address, Some(0), Some(0), None);
          }
        } else {
          result := AddressBalance(address, Some(data[address].finalBalance), Some(data[address].nTx), None);
        }
        results := results + [result];
        i := i + 1;
      }
    }

    method Process(addresses: seq<string>) returns (results: seq<AddressBalance>)
      requires chunkSize > 0
      modifies this
      ensures Scan(results, calls) == ScanBatch(remote, addresses, chunkSize, old(calls))
    {
      var chunks := Chunked(Unique(addresses), chunkSize);
      ghost var n := calls;
      results := [];
      assert chunks[..0] == [];
      for k := 0 to |chunks|
        invariant Scan(results, calls) == ScanChunks(remote, chunks[..k], n)
      {
        ScanChunksStep(remote, chunks, k, n);
        var data, error := FetchWithFallback(chunks[k]);
        var more := ChunkBalances(chunks[k], data, error);
        results := results + more;
      }
      assert chunks[..|chunks|] == chunks;
    }

    /** A full batch: what it yields comes before whatever the later addresses yield. */
    method FullBatch(batch: seq<string>, results: seq<AddressBalance>, ghost later: seq<string>)
      returns (all: seq<AddressBalance>)
      requires chunkSize > 0 && |batch| > 0
      modifies this
      ensures Prepend(all, ScanAll(remote, later, chunkSize, |batch|, calls))
           == Prepend(results, ScanAll(remote, batch + later, chunkSize, |batch|, old(calls)))
    {
      NextBatch(remote, batch, later, chunkSize, calls);
      ghost var first := ScanBatch(remote, batch, chunkSize, calls);
      var more := Process(batch);
      assert first == Scan(more, calls);
      all := results + more;
      PrependTwice(results, more, ScanAll(remote, later, chunkSize, |batch|, calls));
    }

    /** What is left over after the last full batch. */
    method LastBatch(batch: seq<string>, results: seq<AddressBalance>, ghost threshold: nat)
      returns (all: seq<AddressBalance>)
      requires chunkSize > 0 && |batch| < threshold
      modifies this
      ensures Scan(all, calls) == Prepend(results, ScanAll(remote, batch, chunkSize, threshold, old(calls)))
    {
      all := results;
      if |batch| > 0 {
        ghost var last := ScanBatch(remote, batch, chunkSize, calls);
        var more := Process(batch);
        assert last == Scan(more, calls);
        all := all + more;
      }
    }

    method IterBalances(addresses: seq<string>, workers: int) returns (results: seq<AddressBalance>)
      requires chunkSize > 0
      modifies this
      ensures Scan(results, calls) == ScanAll(remote, addresses, chunkSize, Threshold(chunkSize, workers), old(calls))
      ensures NamedInBatches(results, addresses, Threshold(chunkSize, workers))
    {
      var threshold := Threshold(chunkSize, workers);
      ghost var n := calls;
      results := [];
      var batch: seq<string> := [];
      ghost var total := ScanAll(remote, addresses, chunkSize, threshold, calls);
      assert addresses == batch + addresses[0..];
      for i := 0 to |addresses|
        invariant |batch| < threshold
        invariant total == Prepend(results, ScanAll(remote, batch + addresses[i..], chunkSize, threshold, calls))
      {
        MoveToBatch(batch, addresses, i);
        batch := batch + [addresses[i]];
        if |batch| >= threshold {
          results := FullBatch(batch, results, addresses[i + 1..]);
          batch := [];
          assert batch + addresses[i + 1..] == addresses[i + 1..];
        }
      }
      assert batch + addresses[|addresses|..] == batch;
      results := LastBatch(batch, results, threshold);
      ghost var batches := ScanNamesEveryAddress(remote, addresses, chunkSize, threshold, n);
    }
  }

  lemma PrependTwice(first: seq<AddressBalance>, second: seq<AddressBalance>, rest: Scan)
    ensures Prepend(first + second, rest) == Prepend(first, Prepend(second, rest))
  {
  }

  lemma MoveToBatch(batch: seq<string>, addresses: seq<string>, i: nat)
    requires i < |addresses|
    ensures batch + [addresses[i]] + addresses[i + 1..] == batch + addresses[i..]
  {
  }

  function Threshold(size: nat, workers: int): (threshold: nat)
    requires size > 0
    ensures threshold > 0
  {
    size * if workers >= 1 then workers else 1
  }

  function Prepend(results: seq<AddressBalance>, rest: Scan): Scan {
    Scan(results + rest.results, rest.calls)
  }

  lemma NextBatch(remote: Remote, batch: seq<string>, rest: seq<string>, size: nat, n: nat)
    requires size > 0 && |batch| > 0
    ensures var first := ScanBatch(remote, batch, size, n);
            ScanAll(remote, batch + rest, size, |batch|, n)
              == Prepend(first.results, ScanAll(remote, rest, size, |batch|, first.calls))
  {
    assert (batch + rest)[..|batch|] == batch && (batch + rest)[|batch|..] == rest;
    if rest == [] {
      assert batch + rest == batch;
    }
  }

  // ---------------------------------------------------------------- what a batch yields

  function Names(results: seq<AddressBalance>): (names: seq<string>)
    ensures |names| == |results| && forall i | 0 <= i < |names| :: names[i] == results[i].address
  {
    seq(|results|, i requires 0 <= i < |results| => results[i].address)
  }

  lemma {:induction false} FlattenSnoc(chunks: seq<seq<string>>)
    requires chunks != []
    ensures Flatten(chunks) == Flatten(chunks[..|chunks| - 1]) + chunks[|chunks| - 1]
    decreases |chunks|
  {
    if |chunks| == 1 {
      assert chunks[1..] == [] && chunks[..0] == [];
    } else {
      FlattenSnoc(chunks[1..]);
      assert chunks[1..][..|chunks| - 2] == chunks[..|chunks| - 1][1..];
    }
  }

  lemma {:induction false} ChunksNameAll(remote: Remote, chunks: seq<seq<string>>, n: nat)
    ensures Names(ScanChunks(remote, chunks, n).results) == Flatten(chunks)
  {
    if chunks != [] {
      ChunksNameAll(remote, chunks[..|chunks| - 1], n);
      FlattenSnoc(chunks);
    }
  }

  /** A batch yields one result per distinct address, in the order of first occurrence. */
  lemma BatchNamesEachAddressOnce(remote: Remote, batch: seq<string>, size: nat, n: nat)
    requires size > 0
    ensures Names(ScanBatch(remote, batch, size, n).results) == Unique(batch)
  {
    ChunksNameAll(remote, Chunked(Unique(batch), size), n);
    ChunksRebuild(Unique(batch), size);
  }

  /**
    What a result says about its address: a figure some leaf served; an error, if some leaf of its chunk
    failed; or zero, only if every leaf of its chunk answered and none named it.
   */
  ghost predicate Justified(b: AddressBalance, fetched: Fetched) {
    || (b.balance.Some? && b.nTx.Some? && b.error.None?
        && ServedBySome(fetched.Leaves(), b.address, Info(b.balance.value, b.nTx.value)))
    || (&& (forall info :: !ServedBySome(fetched.Leaves(), b.address, info))
        && (if SomeFailed(fetched.Leaves()) then b.balance.None? && b.nTx.None? && b.error.Some?
            else b == AddressBalance(b.address, Some(0), Some(0), None)))
  }

  lemma ChunkIsJustified(remote: Remote, chunk: seq<string>, n: nat, i: nat)
    requires i < |chunk|
    ensures var r := FetchAll(remote, chunk, n);
            Justified(ChunkResults(chunk, r.Data(), r.Error())[i], r)
  {
    DataComesFromLeaves(FetchAll(remote, chunk, n), chunk[i]);
    ErrorIffLeafFailed(FetchAll(remote, chunk, n));
  }

  /** The fetch of chunk `j`, which begins when the chunks before it are done. */
  ghost function FetchOf(remote: Remote, chunks: seq<seq<string>>, n: nat, j: nat): Fetched
    requires j < |chunks|
  {
    FetchAll(remote, chunks[j], ScanChunks(remote, chunks[..j], n).calls)
  }

  /** Result `k` of a scan is that of place `i` in chunk `j`, as the fetch of that chunk warrants. */
  ghost predicate JustifiedAt(remote: Remote, chunks: seq<seq<string>>, n: nat, k: nat, j: nat, i: nat)
    requires k < |ScanChunks(remote, chunks, n).results|
  {
    var result := ScanChunks(remote, chunks, n).results[k];
    j < |chunks| && i < |chunks[j]| && result.address == chunks[j][i]
    && Justified(result, FetchOf(remote, chunks, n, j))
  }

  lemma LastChunkIsJustified(remote: Remote, chunks: seq<seq<string>>, n: nat, k: nat)
    requires chunks != [] && k < |ScanChunks(remote, chunks, n).results|
    requires k >= |ScanChunks(remote, chunks[..|chunks| - 1], n).results|
    ensures JustifiedAt(remote, chunks, n, k, |chunks| - 1,
                        k - |ScanChunks(remote, chunks[..|chunks| - 1], n).results|)
  {
    var before := ScanChunks(remote, chunks[..|chunks| - 1], n);
    ChunkIsJustified(remote, chunks[|chunks| - 1], before.calls, k - |before.results|);
  }

  lemma EarlierFetchStays(remote: Remote, chunks: seq<seq<string>>, n: nat, j: nat)
    requires j < |chunks| - 1
    ensures FetchOf(remote, chunks[..|chunks| - 1], n, j) == FetchOf(remote, chunks, n, j)
  {
    assert chunks[..|chunks| - 1][..j] == chunks[..j];
  }

  /** Every result of a scan is justified by the very fetch that its chunk was given. */
  lemma {:induction false} ScanIsJustified(remote: Remote, chunks: seq<seq<string>>, n: nat, k: nat)
    returns (j: nat, i: nat)
    requires k < |ScanChunks(remote, chunks, n).results|
    ensures JustifiedAt(remote, chunks, n, k, j, i)
  {
    var init := chunks[..|chunks| - 1];
    var before := ScanChunks(remote, init, n);
    if k < |before.results| {
      j, i := ScanIsJustified(remote, init, n, k);
      EarlierFetchStays(remote, chunks, n, j);
    } else {
      j, i := |chunks| - 1, k - |before.results|;
      LastChunkIsJustified(remote, chunks, n, k);
    }
  }

  // ---------------------------------------------------------------- the whole scan

  /** Consecutive batches: all but the last are full, and the last is not empty. */
  ghost predicate BatchesOf(batches: seq<seq<string>>, addresses: seq<string>, threshold: nat) {
    && Flatten(batches) == addresses
    && (forall j | 0 <= j < |batches| - 1 :: |batches[j]| == threshold)
    && (batches != [] ==> 0 < |batches[|batches| - 1]| <= threshold)
  }

  /** The distinct addresses of every batch, batch after batch. */
  function DistinctNames(batches: seq<seq<string>>): seq<string> {
    if batches == [] then [] else Unique(batches[0]) + DistinctNames(batches[1..])
  }

  ghost predicate NamedInBatches(results: seq<AddressBalance>, addresses: seq<string>, threshold: nat) {
    exists batches :: BatchesOf(batches, addresses, threshold) && Names(results) == DistinctNames(batches)
  }

  /** A batch is as large as the chunks of all workers, of which there is at least one. */
  lemma ThresholdIsProduct(size: nat, workers: int)
    requires size > 0
    ensures workers >= 1 ==> Threshold(size, workers) == size * workers
    ensures workers < 1 ==> Threshold(size, workers) == size
  {
  }

  function ChunksOf(batches: seq<seq<string>>, size: nat): seq<seq<string>>
    requires size > 0
  {
    if batches == [] then [] else Chunked(Unique(batches[0]), size) + ChunksOf(batches[1..], size)
  }

  function ScanOneMore(remote: Remote, before: Scan, chunk: seq<string>): Scan {
    var fetched := FetchAll(remote, chunk, before.calls);
    Scan(before.results + ChunkResults(chunk, fetched.Data(), fetched.Error()), before.calls + fetched.Calls())
  }

  lemma ScanChunksSnoc(remote: Remote, chunks: seq<seq<string>>, chunk: seq<string>, n: nat)
    ensures ScanChunks(remote, chunks + [chunk], n) == ScanOneMore(remote, ScanChunks(remote, chunks, n), chunk)
  {
    assert (chunks + [chunk])[..|chunks|] == chunks;
  }

  lemma PrependOneMore(remote: Remote, results: seq<AddressBalance>, before: Scan, chunk: seq<string>)
    ensures ScanOneMore(remote, Prepend(results, before), chunk)
         == Prepend(results, ScanOneMore(remote, before, chunk))
  {
    var fetched := FetchAll(remote, chunk, before.calls);
    var more := ChunkResults(chunk, fetched.Data(), fetched.Error());
    assert (results + before.results) + more == results + (before.results + more);
  }

  lemma {:induction false} ScanChunksConcat(remote: Remote, a: seq<seq<string>>, b: seq<seq<string>>, n: nat)
    ensures var first := ScanChunks(remote, a, n);
            ScanChunks(remote, a + b, n) == Prepend(first.results, ScanChunks(remote, b, first.calls))
  {
    if b == [] {
      assert a + b == a;
    } else {
      var first, init, last := ScanChunks(remote, a, n), b[..|b| - 1], b[|b| - 1];
      ScanChunksConcat(remote, a, init, n);
      ScanChunksSnoc(remote, a + init, last, n);
      ScanChunksSnoc(remote, init, last, first.calls);
      PrependOneMore(remote, first.results, ScanChunks(remote, init, first.calls), last);
      assert a + b == (a + init) + [last] && b == init + [last];
    }
  }

  lemma BatchesCons(batch: seq<string>, batches: seq<seq<string>>, rest: seq<string>, threshold: nat)
    requires |batch| == threshold > 0 && rest != [] && BatchesOf(batches, rest, threshold)
    ensures BatchesOf([batch] + batches, batch + rest, threshold)
    ensures ([batch] + batches)[1..] == batches
  {
    var all := [batch] + batches;
    assert all[1..] == batches;
    forall j | 0 <= j < |all| - 1 ensures |all[j]| == threshold {
      assert j > 0 ==> all[j] == batches[j - 1];
    }
  }

  lemma OneBatch(batch: seq<string>, threshold: nat, size: nat)
    requires 0 < |batch| <= threshold && size > 0
    ensures BatchesOf([batch], batch, threshold) && ChunksOf([batch], size) == Chunked(Unique(batch), size)
  {
    assert [batch][1..] == [];
  }

  /** The scan is that of the chunks of consecutive batches, which together are the addresses. */
  lemma {:induction false} ScanIsThatOfBatches(
    remote: Remote, addresses: seq<string>, size: nat, threshold: nat, n: nat)
    returns (batches: seq<seq<string>>)
    requires size > 0 && threshold > 0
    ensures BatchesOf(batches, addresses, threshold)
    ensures ScanAll(remote, addresses, size, threshold, n) == ScanChunks(remote, ChunksOf(batches, size), n)
    decreases |addresses|
  {
    if |addresses| <= threshold {
      batches := LastBatchOnly(remote, addresses, size, threshold, n);
    } else {
      var batch, rest := CutAt(addresses, threshold);
      var m := ScanBatch(remote, batch, size, n).calls;
      var later := ScanIsThatOfBatches(remote, rest, size, threshold, m);
      batches := FullBatchFirst(remote, batch, rest, later, size, n, m);
    }
  }

  lemma CutAt(addresses: seq<string>, k: nat) returns (front: seq<string>, rest: seq<string>)
    requires k <= |addresses|
    ensures addresses == front + rest && |front| == k
  {
    front, rest := addresses[..k], addresses[k..];
  }

  lemma LastBatchOnly(remote: Remote, addresses: seq<string>, size: nat, threshold: nat, n: nat)
    returns (batches: seq<seq<string>>)
    requires |addresses| <= threshold && threshold > 0 && size > 0
    ensures BatchesOf(batches, addresses, threshold)
    ensures ScanAll(remote, addresses, size, threshold, n) == ScanChunks(remote, ChunksOf(batches, size), n)
  {
    if addresses == [] {
      batches := [];
    } else {
      batches := [addresses];
      OneBatch(addresses, threshold, size);
    }
  }

  lemma FullBatchFirst(
    remote: Remote, batch: seq<string>, rest: seq<string>, later: seq<seq<string>>, size: nat, n: nat, m: nat)
    returns (batches: seq<seq<string>>)
    requires size > 0 && batch != [] && rest != [] && BatchesOf(later, rest, |batch|)
    requires m == ScanBatch(remote, batch, size, n).calls
    requires ScanAll(remote, rest, size, |batch|, m) == ScanChunks(remote, ChunksOf(later, size), m)
    ensures BatchesOf(batches, batch + rest, |batch|)
    ensures ScanAll(remote, batch + rest, size, |batch|, n) == ScanChunks(remote, ChunksOf(batches, size), n)
  {
    batches := [batch] + later;
    BatchesCons(batch, later, rest, |batch|);
    FirstBatch(remote, batch, rest, later, size, n);
  }

  lemma FirstBatch(
    remote: Remote, batch: seq<string>, rest: seq<string>, later: seq<seq<string>>, size: nat, n: nat)
    requires size > 0 && |batch| > 0
    requires var first := ScanBatch(remote, batch, size, n);
             ScanAll(remote, rest, size, |batch|, first.calls) == ScanChunks(remote, ChunksOf(later, size), first.calls)
    ensures ScanAll(remote, batch + rest, size, |batch|, n)
         == ScanChunks(remote, ChunksOf([batch] + later, size), n)
  {
    NextBatch(remote, batch, rest, size, n);
    assert ([batch] + later)[1..] == later;
    ScanChunksConcat(remote, Chunked(Unique(batch), size), ChunksOf(later, size), n);
  }

  lemma {:induction false} FlattenConcat(a: seq<seq<string>>, b: seq<seq<string>>)
    ensures Flatten(a + b) == Flatten(a) + Flatten(b)
  {
    if a == [] {
      assert a + b == b;
    } else {
      FlattenConcat(a[1..], b);
      assert (a + b)[1..] == a[1..] + b;
    }
  }

  lemma {:induction false} ChunksHoldNames(batches: seq<seq<string>>, size: nat)
    requires size > 0
    ensures Flatten(ChunksOf(batches, size)) == DistinctNames(batches)
    ensures forall a :: a in DistinctNames(batches) <==> a in Flatten(batches)
  {
    if batches != [] {
      ChunksHoldNames(batches[1..], size);
      FlattenConcat(Chunked(Unique(batches[0]), size), ChunksOf(batches[1..], size));
      ChunksRebuild(Unique(batches[0]), size);
      UniqueKeepsFirsts(batches[0]);
    }
  }

  /**
    The results of the whole scan name, batch after batch, each distinct address of the batch once, in the
    order of first occurrence; so an address is named exactly when it was given.
   */
  lemma ScanNamesEveryAddress(remote: Remote, addresses: seq<string>, size: nat, threshold: nat, n: nat)
    returns (batches: seq<seq<string>>)
    requires size > 0 && threshold > 0
    ensures BatchesOf(batches, addresses, threshold)
    ensures Names(ScanAll(remote, addresses, size, threshold, n).results) == DistinctNames(batches)
    ensures forall a :: a in addresses <==> a in Names(ScanAll(remote, addresses, size, threshold, n).results)
  {
    batches := ScanIsThatOfBatches(remote, addresses, size, threshold, n);
    ChunksNameAll(remote, ChunksOf(batches, size), n);
    ChunksHoldNames(batches, size);
  }

  /** Every result of the whole scan is justified by the fetch of its chunk, at the call number it really had. */
  lemma WholeScanIsJustified(remote: Remote, addresses: seq<string>, size: nat, threshold: nat, n: nat, k: nat)
    returns (batches: seq<seq<string>>, j: nat, i: nat)
    requires size > 0 && threshold > 0 && k < |ScanAll(remote, addresses, size, threshold, n).results|
    ensures BatchesOf(batches, addresses, threshold)
    ensures var chunks := ChunksOf(batches, size);
            && ScanChunks(remote, chunks, n) == ScanAll(remote, addresses, size, threshold, n)
            && JustifiedAt(remote, chunks, n, k, j, i)
  {
    batches := ScanIsThatOfBatches(remote, addresses, size, threshold, n);
    j, i := ScanIsJustified(remote, ChunksOf(batches, size), n, k);
  }

  /** No result carries both an error and a balance. */
  ghost predicate Clean(results: seq<AddressBalance>) {
    forall i | 0 <= i < |results| :: results[i].error.Some? ==> results[i].balance.None?
  }

  lemma {:induction false} ScansAreClean(remote: Remote, chunks: seq<seq<string>>, n: nat)
    ensures Clean(ScanChunks(remote, chunks, n).results)
  {
    if chunks != [] {
      ScansAreClean(remote, chunks[..|chunks| - 1], n);
    }
  }

  lemma {:induction false} ScanAllIsClean(remote: Remote, addresses: seq<string>, size: nat, threshold: nat, n: nat)
    requires size > 0 && threshold > 0
    ensures Clean(ScanAll(remote, addresses, size, threshold, n).results)
  {
    var batches := ScanIsThatOfBatches(remote, addresses, size, threshold, n);
    ScansAreClean(remote, ChunksOf(batches, size), n);
  }

  // ---------------------------------------------------------------- the counters

  class ScanSummary {
    const minSat: int
    var checked: nat
    var funded: nat
    var fundedBelowMin: nat
    var usedOnly: nat
    var empty: nat
    var unknown: nat
    var totalSat: int

    constructor (minSat: int)
      ensures this.minSat == minSat && totalSat == 0
      ensures checked == funded == fundedBelowMin == usedOnly == empty == unknown == 0
    {
      this.minSat := minSat;
      checked, funded, fundedBelowMin, usedOnly, empty, unknown, totalSat := 0, 0, 0, 0, 0, 0, 0;
    }

    ghost predicate Counts(results: seq<AddressBalance>)
      reads this
    {
      && funded == Count(results, minSat, Hit) && fundedBelowMin == Count(results, minSat, BelowMin)
      && usedOnly == Count(results, minSat, UsedOnly) && empty == Count(results, minSat, Empty)
      && unknown == Count(results, minSat, Unknown) && totalSat == HitTotal(results, minSat)
    }

    /** Exactly one class counter moves with `checked`, the one `ClassOf` names. */
    method Observe(b: AddressBalance)
      modifies this
      ensures checked == old(checked) + 1
      ensures funded == old(funded) + if ClassOf(b, minSat) == Hit then 1 else 0
      ensures fundedBelowMin == old(fundedBelowMin) + if ClassOf(b, minSat) == BelowMin then 1 else 0
      ensures usedOnly == old(usedOnly) + if ClassOf(b, minSat) == UsedOnly then 1 else 0
      ensures empty == old(empty) + if ClassOf(b, minSat) == Empty then 1 else 0
      ensures unknown == old(unknown) + if ClassOf(b, minSat) == Unknown then 1 else 0
      ensures totalSat == old(totalSat) + if ClassOf(b, minSat) == Hit then b.balance.value else 0
    {
      checked := checked + 1;
      if !b.Known() {
        unknown := unknown + 1;
        return;
      }
      if b.IsFunded() {
        if b.balance.value >= minSat {
          funded := funded + 1;
          totalSat := totalSat + b.balance.value;
        } else {
          fundedBelowMin := fundedBelowMin + 1;
        }
      } else if b.IsUsed() {
        usedOnly := usedOnly + 1;
      } else {
        empty := empty + 1;
      }
    }
  }

  datatype Class = Hit | BelowMin | UsedOnly | Empty | Unknown

  function ClassOf(b: AddressBalance, minSat: int): (c: Class)
    ensures c == Hit ==> b.balance.Some?
  {
    if !b.Known() then Unknown
    else if b.IsHit(minSat) then Hit
    else if b.IsFunded() then BelowMin
    else if b.IsUsed() then UsedOnly
    else Empty
  }

  function Count(results: seq<AddressBalance>, minSat: int, c: Class): nat {
    if results == [] then 0
    else Count(results[..|results| - 1], minSat, c) + if ClassOf(results[|results| - 1], minSat) == c then 1 else 0
  }

  function HitTotal(results: seq<AddressBalance>, minSat: int): int {
    if results == [] then 0
    else
      var last := results[|results| - 1];
      HitTotal(results[..|results| - 1], minSat) + if ClassOf(last, minSat) == Hit then last.balance.value else 0
  }

  function Hits(results: seq<AddressBalance>, minSat: int): seq<AddressBalance> {
    if results == [] then []
    else
      var last := results[|results| - 1];
      Hits(results[..|results| - 1], minSat) + if last.IsHit(minSat) then [last] else []
  }

  class ResultStream {
    const minSat: int
    var rows: seq<AddressBalance>
    var written: nat

    constructor (minSat: int)
      ensures this.minSat == minSat && rows == [] && written == 0
    {
      this.minSat, rows, written := minSat, [], 0;
    }

    method Offer(b: AddressBalance) returns (hit: bool)
      modifies this
      ensures hit == b.IsHit(minSat)
      ensures rows == old(rows) + (if hit then [b] else []) && written == old(written) + if hit then 1 else 0
    {
      if !(b.IsFunded() && b.balance.value >= minSat) {
        return false;
      }
      rows := rows + [b];
      written := written + 1;
      return true;
    }
  }

  /** The loop of `main`: every result is observed and offered. */
  method Consume(results: seq<AddressBalance>, summary: ScanSummary, stream: ResultStream)
    requires summary.minSat == stream.minSat
    requires summary.checked == summary.funded == summary.fundedBelowMin == summary.usedOnly == 0
    requires summary.empty == summary.unknown == 0 && summary.totalSat == 0 && stream.rows == [] && stream.written == 0
    modifies summary, stream
    ensures summary.checked == |results|
    ensures summary.checked
         == summary.funded + summary.fundedBelowMin + summary.usedOnly + summary.empty + summary.unknown
    ensures summary.Counts(results)
    ensures stream.rows == Hits(results, summary.minSat) && stream.written == |stream.rows|
    ensures Clean(results) ==> summary.funded == stream.written
  {
    var k := 0;
    while k < |results|
      invariant 0 <= k <= |results|
      invariant summary.checked == k
      invariant k == summary.funded + summary.fundedBelowMin + summary.usedOnly + summary.empty + summary.unknown
      invariant summary.Counts(results[..k])
      invariant stream.rows == Hits(results[..k], summary.minSat) && stream.written == |stream.rows|
    {
      assert results[..k + 1][..k] == results[..k];
      summary.Observe(results[k]);
      var hit := stream.Offer(results[k]);
      k := k + 1;
    }
    assert results[..k] == results;
    HitsAreCounted(results, summary.minSat);
  }

  /** Rows written and hits counted agree exactly when no hit was counted as unknown. */
  lemma {:induction false} HitsAreCounted(results: seq<AddressBalance>, minSat: int)
    ensures |Hits(results, minSat)| >= Count(results, minSat, Hit)
    ensures |Hits(results, minSat)| == Count(results, minSat, Hit)
       <==> forall i | 0 <= i < |results| :: results[i].IsHit(minSat) ==> results[i].error.None?
  {
    if results != [] {
      HitsAreCounted(results[..|results| - 1], minSat);
    }
  }

  /** The five classes by the figures alone, so far as a result has them and no error. */
  lemma ClassesByFigures(address: string, balance: int, nTx: int, minSat: int)
    ensures var b := AddressBalance(address, Some(balance), Some(nTx), None);
            && (ClassOf(b, minSat) == Hit <==> balance != 0 && balance >= minSat)
            && (ClassOf(b, minSat) == BelowMin <==> balance != 0 && balance < minSat)
            && (ClassOf(b, minSat) == UsedOnly <==> balance == 0 && nTx != 0)
            && (ClassOf(b, minSat) == Empty <==> balance == 0 && nTx == 0)
  {
  }

  /** All balances that are known. */
  function Balances(results: seq<AddressBalance>): int {
    if results == [] then 0
    else Balances(results[1..]) + if results[0].Known() then results[0].balance.value else 0
  }

  lemma {:induction false} BalancesSnoc(results: seq<AddressBalance>)
    requires results != []
    ensures var last := results[|results| - 1];
            Balances(results) == Balances(results[..|results| - 1]) + if last.Known() then last.balance.value else 0
  {
    if |results| > 1 {
      BalancesSnoc(results[1..]);
      assert results[1..][..|results| - 2] == results[..|results| - 1][1..];
    }
  }

  /** With a minimum of at most one the total of the hits misses no balance. */
  lemma {:induction false} HitTotalIsAll(results: seq<AddressBalance>, minSat: int)
    requires minSat <= 1 && forall b <- results :: b.Known() ==> b.balance.value >= 0
    ensures HitTotal(results, minSat) == Balances(results)
  {
    if results != [] {
      var n := |results| - 1;
      assert forall b <- results[..n] :: b in results;
      HitTotalIsAll(results[..n], minSat);
      BalancesSnoc(results);
      assert results[n] in results;
    }
  }
}
