/**
 * `processData` of the listings page: every element of the upstream array is
 * tagged with its position (`_uniqueIndex`), then records whose truthy `Id` was
 * already seen are dropped.
 */
module Records {
  import opened Wrappers
  import opened Json
  import opened Listing
  import opened Seqs

  /** A record as `processData` stores it: the listing fields plus `_uniqueIndex`. */
  datatype Tagged = Tagged(listing: Listing, uniqueIndex: nat)

  /** Each record's `_uniqueIndex` is its position in the sequence. */
  predicate Indexed(ts: seq<Tagged>) {
    forall i | 0 <= i < |ts| :: ts[i].uniqueIndex == i
  }

  /** `(rawData || []).map((item, index) => ({...item, _uniqueIndex: index}))`. */
  function Tag(raw: seq<Json>): (ts: seq<Tagged>)
    ensures |ts| == |raw| && Indexed(ts)
    ensures forall i | 0 <= i < |ts| :: ts[i].listing == Lift(raw[i])
  {
    seq(|raw|, i requires 0 <= i < |raw| => Tagged(Lift(raw[i]), i))
  }

  predicate HasId(t: Tagged) {
    Truthy(t.listing.id)
  }

  /** Record `i` survives: it has no truthy `Id`, or no earlier record carries the same `Id`. */
  predicate FirstOccurrence(ts: seq<Tagged>, i: nat)
    requires i < |ts|
  {
    !HasId(ts[i]) || forall j | 0 <= j < i :: ts[j].listing.id != ts[i].listing.id
  }

  /** The ids `idSet` holds after the first `n` records. */
  function SeenIds(ts: seq<Tagged>, n: nat): set<Json>
    requires n <= |ts|
  {
    set j | 0 <= j < n && HasId(ts[j]) :: ts[j].listing.id
  }

  /** The survivors among the first `n` records, in order. */
  function Select(ts: seq<Tagged>, n: nat): (r: seq<Tagged>)
    requires n <= |ts|
  {
    if n == 0 then []
    else Select(ts, n - 1) + (if FirstOccurrence(ts, n - 1) then [ts[n - 1]] else [])
  }

  /** At most one survivor per record. */
  lemma {:induction false} SelectLength(ts: seq<Tagged>, n: nat)
    requires n <= |ts|
    ensures |Select(ts, n)| <= n
  {
    if n > 0 {
      SelectLength(ts, n - 1);
    }
  }

  /** The records `processData` keeps, out of the tagged records `ts`. */
  function Dedup(ts: seq<Tagged>): (r: seq<Tagged>)
    ensures |r| <= |ts|
  {
    SelectLength(ts, |ts|);
    Select(ts, |ts|)
  }

  /** No two records carry the same truthy `Id`. */
  predicate UniqueIds(ts: seq<Tagged>) {
    forall j, k | 0 <= j < k < |ts| :: HasId(ts[k]) ==> ts[j].listing.id != ts[k].listing.id
  }

  /** `_uniqueIndex` strictly increases along the sequence. */
  predicate IncreasingIndex(ts: seq<Tagged>) {
    forall j, k | 0 <= j < k < |ts| :: ts[j].uniqueIndex < ts[k].uniqueIndex
  }

  /**
   * What `processData(rawData)` hands to `setData`, or the TypeError it throws:
   * `(rawData || [])` turns a falsy value into no records, and a truthy value
   * that is not an array has no `.map`.
   */
  function Processed(rawData: Json): (r: Result<seq<Tagged>>)
    ensures r.Err? <==> Truthy(rawData) && !rawData.JArray?
    ensures r.Ok? ==> UniqueIds(r.value) && IncreasingIndex(r.value)
    ensures rawData.JArray? ==> r.Ok? && |r.value| <= |rawData.items|
  {
    if !Truthy(rawData) then Ok([])
    else if rawData.JArray? then
      DedupKeepsFirstOccurrences(Tag(rawData.items));
      Ok(Dedup(Tag(rawData.items)))
    else Err(TypeError)
  }

  // ------------------------------------------------------------- the loop

  /**
   * `processData(rawData)`: tags the records, then de-duplicates them. A truthy
   * value that is not an array throws, as it has no `.map`.
   */
  method ProcessData(rawData: Json) returns (r: Result<seq<Tagged>>)
    ensures !Truthy(rawData) ==> r == Ok([])
    ensures rawData.JArray? ==> r == Ok(Dedup(Tag(rawData.items)))
    ensures Truthy(rawData) && !rawData.JArray? ==> r.Err?
    ensures r == Processed(rawData)
  {
    if !Truthy(rawData) {
      return Ok([]);
    }
    if !rawData.JArray? {
      return Err(TypeError);
    }
    var uniqueData := KeepFirst(Tag(rawData.items));
    return Ok(uniqueData);
  }

  /**
   * The `forEach` of `processData` over the tagged records: a record is pushed
   * when its `Id` is falsy or not yet in `idSet`, and a truthy `Id` is added to
   * `idSet` when pushed.
   */
  method KeepFirst(tagged: seq<Tagged>) returns (uniqueData: seq<Tagged>)
    ensures uniqueData == Dedup(tagged)
  {
    uniqueData := [];
    var idSet: set<Json> := {};
    var i := 0;
    assert SeenIds(tagged, 0) == {};
    while i < |tagged|
      invariant 0 <= i <= |tagged|
      invariant uniqueData == Select(tagged, i)
      invariant idSet == SeenIds(tagged, i)
    {
      var item := tagged[i];
      SeenIdsStep(tagged, i);
      ghost var next := Select(tagged, i + 1);
      assert next == uniqueData + (if FirstOccurrence(tagged, i) then [item] else []);
      if HasId(item) && item.listing.id !in idSet {
        idSet := idSet + {item.listing.id};
        uniqueData := uniqueData + [item];
      } else if !HasId(item) {
        uniqueData := uniqueData + [item];
      }
      assert uniqueData == next;
      assert idSet == SeenIds(tagged, i + 1);
      i := i + 1;
    }
  }

  lemma SeenIdsStep(ts: seq<Tagged>, i: nat)
    requires i < |ts|
    ensures FirstOccurrence(ts, i) <==> !HasId(ts[i]) || ts[i].listing.id !in SeenIds(ts, i)
    ensures SeenIds(ts, i + 1) == SeenIds(ts, i) + (if HasId(ts[i]) then {ts[i].listing.id} else {})
  {
    if HasId(ts[i]) && !FirstOccurrence(ts, i) {
      var j :| 0 <= j < i && ts[j].listing.id == ts[i].listing.id;
      assert HasId(ts[j]);
    }
  }

  // ------------------------------------------------------------- properties

  /**
   * The survivors are input records, in input order: each one sits at the
   * position its `_uniqueIndex` names and is the first record with its `Id`.
   */
  lemma {:induction false} SelectShape(ts: seq<Tagged>, n: nat)
    requires Indexed(ts) && n <= |ts|
    ensures forall k | 0 <= k < |Select(ts, n)| ::
      Select(ts, n)[k].uniqueIndex < n
      && Select(ts, n)[k] == ts[Select(ts, n)[k].uniqueIndex]
      && FirstOccurrence(ts, Select(ts, n)[k].uniqueIndex)
    ensures IncreasingIndex(Select(ts, n))
  {
    if n > 0 {
      SelectShape(ts, n - 1);
    }
  }

  /** Every record that is the first with its `Id`, and every record without one, survives. */
  lemma {:induction false} SelectComplete(ts: seq<Tagged>, n: nat, i: nat)
    requires n <= |ts| && i < n && FirstOccurrence(ts, i)
    ensures ts[i] in Select(ts, n)
  {
    if i < n - 1 {
      SelectComplete(ts, n - 1, i);
    }
  }

  lemma {:induction false} SelectSubsequence(ts: seq<Tagged>, n: nat)
    requires n <= |ts|
    ensures IsSubsequence(Select(ts, n), ts[..n])
  {
    if n > 0 {
      SelectSubsequence(ts, n - 1);
      assert ts[..n] == ts[..n - 1] + [ts[n - 1]];
      if FirstOccurrence(ts, n - 1) {
        SubsequenceKeep(Select(ts, n - 1), ts[..n - 1], ts[n - 1]);
      } else {
        SubsequenceDrop(Select(ts, n - 1), ts[..n - 1], ts[n - 1]);
        assert Select(ts, n) == Select(ts, n - 1);
      }
    }
  }

  /** The de-duplicated data is an order-preserving subsequence of the tagged input. */
  lemma DedupSubsequence(ts: seq<Tagged>)
    ensures IsSubsequence(Dedup(ts), ts)
  {
    SelectSubsequence(ts, |ts|);
    assert ts[..|ts|] == ts;
  }

  /**
   * What `processData` keeps, for tagged input: record `i` is kept iff it is the
   * first with its `Id` or has none, and the kept records have strictly
   * increasing `_uniqueIndex` and pairwise different truthy `Id`s.
   */
  lemma DedupKeepsFirstOccurrences(ts: seq<Tagged>)
    requires Indexed(ts)
    ensures forall i | 0 <= i < |ts| :: ts[i] in Dedup(ts) <==> FirstOccurrence(ts, i)
    ensures forall i | 0 <= i < |ts| && !HasId(ts[i]) :: ts[i] in Dedup(ts)
    ensures IncreasingIndex(Dedup(ts))
    ensures UniqueIds(Dedup(ts))
  {
    var out := Dedup(ts);
    SelectShape(ts, |ts|);
    forall i | 0 <= i < |ts|
      ensures ts[i] in out <==> FirstOccurrence(ts, i)
    {
      if FirstOccurrence(ts, i) {
        SelectComplete(ts, |ts|, i);
      }
    }
    forall j, k | 0 <= j < k < |out| && HasId(out[k])
      ensures out[j].listing.id != out[k].listing.id
    {
      assert out[j].uniqueIndex < out[k].uniqueIndex;
      assert FirstOccurrence(ts, out[k].uniqueIndex);
    }
  }

  /** A sequence whose truthy `Id`s are already distinct comes back unchanged. */
  lemma {:induction false} SelectUnique(ts: seq<Tagged>, n: nat)
    requires UniqueIds(ts) && n <= |ts|
    ensures Select(ts, n) == ts[..n]
  {
    if n > 0 {
      SelectUnique(ts, n - 1);
      assert FirstOccurrence(ts, n - 1);
      assert ts[..n] == ts[..n - 1] + [ts[n - 1]];
    }
  }

  /** De-duplicating twice keeps what de-duplicating once keeps. */
  lemma DedupIdempotent(ts: seq<Tagged>)
    requires Indexed(ts)
    ensures Dedup(Dedup(ts)) == Dedup(ts)
  {
    DedupKeepsFirstOccurrences(ts);
    SelectUnique(Dedup(ts), |Dedup(ts)|);
    assert Dedup(ts)[..|Dedup(ts)|] == Dedup(ts);
  }
}
