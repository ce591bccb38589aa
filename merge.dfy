/**
 * The fan-in of the area search as values: per-cell outcomes, the first-seen
 * filter by place id, and the merged result the cell loop must produce.
 */
module Merge {
  import opened Wrappers
  import opened Places

  /**
   * The nearby-search outcome for one grid cell: the answer was not 2xx, the
   * request raised (no answer: connection error or timeout) with a message,
   * the provider answered with an `error_message`, or it answered with a list
   * of places (`results`, empty when absent).
   */
  datatype CellOutcome =
    | RequestFailed
    | RequestThrew(message: string)
    | ProviderError(message: string)
    | Results(places: seq<RawPlace>)

  /** A cell whose outcome raises out of the cell loop: a thrown request or a provider error. */
  predicate Aborts(cell: CellOutcome) {
    cell.RequestThrew? || cell.ProviderError?
  }

  /** Outcome of the cell loop: the accumulated records, or the abort message. */
  datatype MergeResult = Merged(restaurants: seq<Restaurant>) | Aborted(message: string)

  /** The places a cell contributes. */
  function CellPlaces(cell: CellOutcome): seq<RawPlace> {
    if cell.Results? then cell.places else []
  }

  /** The places of all cells, cell by cell and in result order. */
  function Flatten(cells: seq<CellOutcome>): seq<RawPlace> {
    if cells == [] then [] else Flatten(cells[..|cells| - 1]) + CellPlaces(cells[|cells| - 1])
  }

  function IdsOf(places: seq<RawPlace>): set<string> {
    set p | p in places :: p.placeId
  }

  /** The places whose id has not occurred earlier in the sequence, in order. */
  function Dedup(places: seq<RawPlace>): seq<RawPlace> {
    if places == [] then []
    else
      var init := places[..|places| - 1];
      var p := places[|places| - 1];
      if p.placeId in IdsOf(init) then Dedup(init) else Dedup(init) + [p]
  }

  /** The record of each place, built with the details looked up for its id. */
  function Records(places: seq<RawPlace>, detailsOf: string -> Option<Details>, apiKey: string): seq<Restaurant> {
    if places == [] then []
    else
      var p := places[|places| - 1];
      Records(places[..|places| - 1], detailsOf, apiKey) + [MakeRestaurant(p, detailsOf(p.placeId), apiKey)]
  }

  /** The index of the first cell that aborts the loop, or the number of cells. */
  function ErrorIndex(cells: seq<CellOutcome>): (n: nat)
    ensures n <= |cells|
    ensures forall k :: 0 <= k < n ==> !Aborts(cells[k])
    ensures n < |cells| ==> Aborts(cells[n])
  {
    if cells == [] then 0
    else if Aborts(cells[0]) then 0
    else 1 + ErrorIndex(cells[1..])
  }

  /**
   * What the cell loop yields: the first thrown request or provider error
   * aborts the whole search with its message; otherwise one record per
   * first-seen place.
   */
  function MergeCells(cells: seq<CellOutcome>, detailsOf: string -> Option<Details>, apiKey: string): MergeResult {
    var n := ErrorIndex(cells);
    if n < |cells| then Aborted(cells[n].message)
    else Merged(Records(Dedup(Flatten(cells)), detailsOf, apiKey))
  }

  /** The first place in the sequence with the given id, if any. */
  function FirstWithId(places: seq<RawPlace>, id: string): Option<RawPlace> {
    if places == [] then None
    else if places[0].placeId == id then Some(places[0])
    else FirstWithId(places[1..], id)
  }

  /** No two elements share a place id. */
  ghost predicate DistinctIds(places: seq<RawPlace>) {
    forall a, b :: 0 <= a < b < |places| ==> places[a].placeId != places[b].placeId
  }

  // ---------------------------------------------------------------------------
  // Small facts about the definitions

  lemma IdsOfSnoc(places: seq<RawPlace>, p: RawPlace)
    ensures IdsOf(places + [p]) == IdsOf(places) + {p.placeId}
  {
    assert forall q :: q in places + [p] <==> q in places || q == p;
  }

  lemma IdsOfAppend(a: seq<RawPlace>, b: seq<RawPlace>)
    ensures IdsOf(a + b) == IdsOf(a) + IdsOf(b)
  {
    assert forall q :: q in a + b <==> q in a || q in b;
  }

  lemma SnocInit<T>(s: seq<T>, x: T)
    ensures (s + [x])[..|s|] == s && (s + [x])[|s|] == x
  {
  }

  lemma {:induction false} FlattenAppend(a: seq<CellOutcome>, b: seq<CellOutcome>)
    ensures Flatten(a + b) == Flatten(a) + Flatten(b)
    decreases |b|
  {
    if b == [] {
      assert a + b == a;
    } else {
      var init := b[..|b| - 1];
      FlattenAppend(a, init);
      assert (a + b)[..|a + b| - 1] == a + init;
      assert (a + b)[|a + b| - 1] == b[|b| - 1];
    }
  }

  lemma {:induction false} FirstWithIdSnoc(places: seq<RawPlace>, p: RawPlace, id: string)
    ensures FirstWithId(places + [p], id) ==
              if FirstWithId(places, id).Some? then FirstWithId(places, id)
              else if p.placeId == id then Some(p) else None
  {
    if places != [] {
      assert (places + [p])[1..] == places[1..] + [p];
      FirstWithIdSnoc(places[1..], p, id);
    }
  }

  lemma {:induction false} FirstWithIdPresent(places: seq<RawPlace>, id: string)
    ensures FirstWithId(places, id).Some? <==> id in IdsOf(places)
    ensures FirstWithId(places, id).Some? ==> FirstWithId(places, id).value in places
    ensures FirstWithId(places, id).Some? ==> FirstWithId(places, id).value.placeId == id
  {
    if places != [] {
      FirstWithIdPresent(places[1..], id);
      assert places == [places[0]] + places[1..];
      IdsOfAppend([places[0]], places[1..]);
    }
  }

  // ---------------------------------------------------------------------------
  // The first-seen filter

  /**
   * The first-seen filter keeps every id that occurs, each exactly once, and
   * the element it keeps for an id is that id's first occurrence.
   */
  lemma DedupFirstSeen(places: seq<RawPlace>)
    ensures IdsOf(Dedup(places)) == IdsOf(places)
    ensures DistinctIds(Dedup(places))
    ensures forall p :: p in Dedup(places) ==> FirstWithId(places, p.placeId) == Some(p)
  {
    DedupIds(places);
    DedupDistinct(places);
    DedupKeepsFirst(places);
  }

  lemma {:induction false} DedupIds(places: seq<RawPlace>)
    ensures IdsOf(Dedup(places)) == IdsOf(places)
  {
    if places != [] {
      var init := places[..|places| - 1];
      var p := places[|places| - 1];
      assert places == init + [p];
      DedupIds(init);
      IdsOfSnoc(init, p);
      IdsOfSnoc(Dedup(init), p);
    }
  }

  lemma {:induction false} DedupDistinct(places: seq<RawPlace>)
    ensures DistinctIds(Dedup(places))
  {
    if places != [] {
      var init := places[..|places| - 1];
      var p := places[|places| - 1];
      DedupDistinct(init);
      DedupIds(init);
      if p.placeId !in IdsOf(init) {
        var u := Dedup(init);
        assert forall a :: 0 <= a < |u| ==> u[a] in u && u[a].placeId in IdsOf(u);
      }
    }
  }

  lemma {:induction false} DedupKeepsFirst(places: seq<RawPlace>)
    ensures forall p :: p in Dedup(places) ==> FirstWithId(places, p.placeId) == Some(p)
  {
    if places != [] {
      var init := places[..|places| - 1];
      var p := places[|places| - 1];
      assert places == init + [p];
      DedupKeepsFirst(init);
      DedupIds(init);
      forall id {
        FirstWithIdSnoc(init, p, id);
      }
      FirstWithIdPresent(init, p.placeId);
      forall q | q in Dedup(init)
        ensures q.placeId in IdsOf(init)
      {
        assert q.placeId in IdsOf(Dedup(init));
      }
    }
  }

  /**
   * Later duplicates change nothing: appending places whose ids were all seen
   * already leaves both the seen ids and the kept places as they were.
   */
  lemma {:induction false} LaterDuplicatesIgnored(places: seq<RawPlace>, later: seq<RawPlace>)
    requires IdsOf(later) <= IdsOf(places)
    ensures IdsOf(places + later) == IdsOf(places)
    ensures Dedup(places + later) == Dedup(places)
    decreases |later|
  {
    IdsOfAppend(places, later);
    if later == [] {
      assert places + later == places;
    } else {
      var init := later[..|later| - 1];
      var p := later[|later| - 1];
      assert later == init + [p];
      IdsOfSnoc(init, p);
      LaterDuplicatesIgnored(places, init);
      assert places + later == (places + init) + [p];
      SnocInit(places + init, p);
    }
  }

  /** `Records` builds one record per place, in order, each from its own details. */
  lemma {:induction false} RecordsAt(places: seq<RawPlace>, detailsOf: string -> Option<Details>, apiKey: string)
    ensures |Records(places, detailsOf, apiKey)| == |places|
    ensures forall k :: 0 <= k < |places| ==>
              Records(places, detailsOf, apiKey)[k] == MakeRestaurant(places[k], detailsOf(places[k].placeId), apiKey)
  {
    if places != [] {
      RecordsAt(places[..|places| - 1], detailsOf, apiKey);
    }
  }

  // ---------------------------------------------------------------------------
  // The merged result

  /**
   * A merged result holds pairwise distinct place ids; every place id in any
   * successful cell's results is in it exactly once and it holds no other; and
   * the record for an id is built from the first cell and result position
   * where that id appeared, with that id's details.
   */
  lemma MergedRecords(cells: seq<CellOutcome>, detailsOf: string -> Option<Details>, apiKey: string)
    requires MergeCells(cells, detailsOf, apiKey).Merged?
    ensures var rs := MergeCells(cells, detailsOf, apiKey).restaurants;
            && (forall a, b :: 0 <= a < b < |rs| ==> rs[a].placeId != rs[b].placeId)
            && (forall k, p :: 0 <= k < |cells| && p in CellPlaces(cells[k]) ==>
                  exists a :: 0 <= a < |rs| && rs[a].placeId == p.placeId)
            && (forall a :: 0 <= a < |rs| ==> rs[a].placeId in IdsOf(Flatten(cells)))
            && (forall a :: 0 <= a < |rs| ==>
                  && FirstWithId(Flatten(cells), rs[a].placeId).Some?
                  && rs[a] == MakeRestaurant(FirstWithId(Flatten(cells), rs[a].placeId).value,
                                             detailsOf(rs[a].placeId), apiKey))
  {
    var all := Flatten(cells);
    var rs := MergeCells(cells, detailsOf, apiKey).restaurants;
    assert rs == Records(Dedup(all), detailsOf, apiKey);
    RecordsOfFirstSeen(all, detailsOf, apiKey);
    RecordsCoverIds(all, detailsOf, apiKey);
    forall k, p | 0 <= k < |cells| && p in CellPlaces(cells[k])
      ensures exists a :: 0 <= a < |rs| && rs[a].placeId == p.placeId
    {
      CellPlacesInFlatten(cells, k);
    }
  }

  /** The records of the first-seen places have distinct ids, each built from that id's first place. */
  lemma RecordsOfFirstSeen(places: seq<RawPlace>, detailsOf: string -> Option<Details>, apiKey: string)
    ensures var rs := Records(Dedup(places), detailsOf, apiKey);
            && |rs| == |Dedup(places)|
            && (forall a, b :: 0 <= a < b < |rs| ==> rs[a].placeId != rs[b].placeId)
            && (forall a :: 0 <= a < |rs| ==>
                  && rs[a].placeId in IdsOf(places)
                  && FirstWithId(places, rs[a].placeId) == Some(Dedup(places)[a])
                  && rs[a] == MakeRestaurant(Dedup(places)[a], detailsOf(rs[a].placeId), apiKey))
  {
    var kept := Dedup(places);
    DedupFirstSeen(places);
    RecordsAt(kept, detailsOf, apiKey);
    forall a | 0 <= a < |kept|
      ensures kept[a].placeId in IdsOf(places)
    {
      assert kept[a] in kept;
    }
  }

  /** Every id among the places has a record. */
  lemma RecordsCoverIds(places: seq<RawPlace>, detailsOf: string -> Option<Details>, apiKey: string)
    ensures var rs := Records(Dedup(places), detailsOf, apiKey);
            forall p :: p in places ==> exists a :: 0 <= a < |rs| && rs[a].placeId == p.placeId
  {
    var kept := Dedup(places);
    var rs := Records(kept, detailsOf, apiKey);
    DedupFirstSeen(places);
    RecordsAt(kept, detailsOf, apiKey);
    forall p | p in places
      ensures exists a :: 0 <= a < |rs| && rs[a].placeId == p.placeId
    {
      assert p.placeId in IdsOf(kept);
      var q :| q in kept && q.placeId == p.placeId;
      var a :| 0 <= a < |kept| && kept[a] == q;
      assert rs[a].placeId == q.placeId;
    }
  }

  /** Every place of every cell is among the flattened places. */
  lemma {:induction false} CellPlacesInFlatten(cells: seq<CellOutcome>, k: nat)
    requires k < |cells|
    ensures forall p :: p in CellPlaces(cells[k]) ==> p in Flatten(cells)
  {
    var init := cells[..|cells| - 1];
    if k < |cells| - 1 {
      CellPlacesInFlatten(init, k);
    }
  }

  /**
   * The search aborts exactly when some cell's request threw or carries a
   * provider error, with the message of the first such cell; a non-2xx
   * answer never aborts.
   */
  lemma AbortedOnException(cells: seq<CellOutcome>, detailsOf: string -> Option<Details>, apiKey: string)
    ensures MergeCells(cells, detailsOf, apiKey).Aborted? <==> exists k :: 0 <= k < |cells| && Aborts(cells[k])
    ensures MergeCells(cells, detailsOf, apiKey).Aborted? ==>
              exists k :: 0 <= k < |cells| && Aborts(cells[k])
                && MergeCells(cells, detailsOf, apiKey).message == cells[k].message
                && forall m :: 0 <= m < k ==> !Aborts(cells[m])
  {
  }

  /** `ErrorIndex` is determined by its contract. */
  lemma ErrorIndexUnique(cells: seq<CellOutcome>, n: nat)
    requires n <= |cells|
    requires forall k :: 0 <= k < n ==> !Aborts(cells[k])
    requires n < |cells| ==> Aborts(cells[n])
    ensures ErrorIndex(cells) == n
  {
  }

  /** Flattening one more cell of a prefix appends that cell's places. */
  lemma FlattenPrefixStep(cells: seq<CellOutcome>, k: nat)
    requires k < |cells|
    ensures Flatten(cells[..k + 1]) == Flatten(cells[..k]) + CellPlaces(cells[k])
  {
    assert cells[..k + 1][..k] == cells[..k];
  }

  /** The first aborting cell, at `k`, decides the merged result. */
  lemma AbortAt(cells: seq<CellOutcome>, k: nat, detailsOf: string -> Option<Details>, apiKey: string)
    requires k < |cells| && Aborts(cells[k])
    requires forall m :: 0 <= m < k ==> !Aborts(cells[m])
    ensures ErrorIndex(cells) == k
    ensures MergeCells(cells, detailsOf, apiKey) == Aborted(cells[k].message)
  {
    ErrorIndexUnique(cells, k);
  }

  /** With no aborting cell, every cell takes part in the merged result. */
  lemma MergeComplete(cells: seq<CellOutcome>, detailsOf: string -> Option<Details>, apiKey: string)
    requires forall m :: 0 <= m < |cells| ==> !Aborts(cells[m])
    ensures ErrorIndex(cells) == |cells| && cells[..ErrorIndex(cells)] == cells
    ensures MergeCells(cells, detailsOf, apiKey) == Merged(Records(Dedup(Flatten(cells)), detailsOf, apiKey))
  {
    ErrorIndexUnique(cells, |cells|);
  }

  /**
   * A cell whose request failed contributes no records, and the search goes
   * on: inserting such a cell anywhere leaves the merged result unchanged.
   */
  lemma FailedCellSkipped(before: seq<CellOutcome>, after: seq<CellOutcome>,
                          detailsOf: string -> Option<Details>, apiKey: string)
    ensures MergeCells(before + [RequestFailed] + after, detailsOf, apiKey) ==
            MergeCells(before + after, detailsOf, apiKey)
  {
    var cells := before + [RequestFailed] + after;
    var cells' := before + after;
    FailedCellFlattensAway(before, after);
    FailedCellErrorIndex(before, after);
    var n' := ErrorIndex(cells');
    if n' < |cells'| {
      if n' < |before| {
        assert cells[n'] == before[n'] == cells'[n'];
      } else {
        assert cells[n' + 1] == after[n' - |before|] == cells'[n'];
      }
    }
  }

  lemma FailedCellFlattensAway(before: seq<CellOutcome>, after: seq<CellOutcome>)
    ensures Flatten(before + [RequestFailed] + after) == Flatten(before + after)
  {
    var withFailed := before + [RequestFailed];
    assert [RequestFailed][..0] == [];
    assert Flatten([RequestFailed]) == [];
    FlattenAppend(before, [RequestFailed]);
    assert Flatten(withFailed) == Flatten(before) + [];
    assert Flatten(before) + [] == Flatten(before);
    FlattenAppend(withFailed, after);
    FlattenAppend(before, after);
  }

  lemma FailedCellErrorIndex(before: seq<CellOutcome>, after: seq<CellOutcome>)
    ensures var n' := ErrorIndex(before + after);
            ErrorIndex(before + [RequestFailed] + after) == if n' < |before| then n' else n' + 1
  {
    var cells := before + [RequestFailed] + after;
    var cells' := before + after;
    var n' := ErrorIndex(cells');
    var n := if n' < |before| then n' else n' + 1;
    assert forall k :: 0 <= k < |before| ==> cells[k] == cells'[k];
    assert cells[|before|] == RequestFailed;
    assert forall k :: |before| < k < |cells| ==> cells[k] == cells'[k - 1];
    ErrorIndexUnique(cells, n);
  }
  // ---------------------------------------------------------------------------
  // Reordering the records

  /** A reordering of records with pairwise distinct ids has pairwise distinct ids. */
  lemma PermutationKeepsDistinctIds(data: seq<Restaurant>, rs: seq<Restaurant>)
    requires multiset(data) == multiset(rs)
    requires forall a, b :: 0 <= a < b < |rs| ==> rs[a].placeId != rs[b].placeId
    ensures forall a, b :: 0 <= a < b < |data| ==> data[a].placeId != data[b].placeId
  {
    forall a, b | 0 <= a < b < |data|
      ensures data[a].placeId != data[b].placeId
    {
      if data[a].placeId == data[b].placeId {
        assert data[a] in multiset(rs) && data[b] in multiset(rs);
        var i :| 0 <= i < |rs| && rs[i] == data[a];
        var j :| 0 <= j < |rs| && rs[j] == data[b];
        if data[a] == data[b] {
          TwiceCounted(data, a, b);
          AtMostOnce(rs, data[a]);
          assert false;
        } else {
          assert false;
        }
      }
    }
  }

  /** An element at two positions is counted at least twice. */
  lemma TwiceCounted<T>(s: seq<T>, a: nat, b: nat)
    requires a < b < |s| && s[a] == s[b]
    ensures multiset(s)[s[a]] >= 2
  {
    assert s == s[..b] + [s[b]] + s[b + 1..];
    assert s[a] in s[..b];
  }

  /** With pairwise distinct ids, a record is counted at most once. */
  lemma {:induction false} AtMostOnce(rs: seq<Restaurant>, x: Restaurant)
    requires forall a, b :: 0 <= a < b < |rs| ==> rs[a].placeId != rs[b].placeId
    ensures multiset(rs)[x] <= 1
  {
    if rs != [] {
      var init := rs[..|rs| - 1];
      assert rs == init + [rs[|rs| - 1]];
      AtMostOnce(init, x);
    }
  }
}
