/** The worker-id visibility filter shared by the planning grid and the mobile agenda:
    a list of ids where clicking an id adds it when absent and removes it when present. */
module ToggleList {
  import Sequences

  predicate NoDup(ids: seq<string>) {
    forall j, k :: 0 <= j < k < |ids| ==> ids[j] != ids[k]
  }

  /** `prev.includes(id) ? prev.filter(cId => cId !== id) : [...prev, id]`. */
  function Toggle(ids: seq<string>, id: string): (r: seq<string>)
    ensures id in r <==> id !in ids
    ensures forall x :: x != id ==> (x in r <==> x in ids)
  {
    if id in ids then Sequences.Filter(ids, (x: string) => x != id) else ids + [id]
  }

  /** The ids applied one after another, each toggle seeing the result of the previous one. */
  function ToggleEach(ids: seq<string>, clicks: seq<string>): seq<string>
    decreases |clicks|
  {
    if clicks == [] then ids else ToggleEach(Toggle(ids, clicks[0]), clicks[1..])
  }

  /** Filtering a duplicate-free list leaves it duplicate-free. */
  lemma {:induction false} FilterNoDup(ids: seq<string>, p: string -> bool)
    requires NoDup(ids)
    ensures NoDup(Sequences.Filter(ids, p))
    decreases |ids|
  {
    if ids != [] {
      assert NoDup(ids[1..]);
      FilterNoDup(ids[1..], p);
      assert ids[0] !in ids[1..];
    }
  }

  /** Toggling twice restores every id's membership. */
  lemma ToggleTwiceMembership(ids: seq<string>, id: string, x: string)
    ensures x in Toggle(Toggle(ids, id), id) <==> x in ids
  {
  }

  /** Toggling an absent id twice restores the list itself, order included. */
  lemma ToggleTwiceRestoresAbsent(ids: seq<string>, id: string)
    requires id !in ids
    ensures Toggle(Toggle(ids, id), id) == ids
  {
    var p := (x: string) => x != id;
    assert Toggle(ids, id) == ids + [id];
    Sequences.FilterAppend(ids, [id], p);
    Sequences.FilterKeepsAll(ids, p);
    assert Sequences.Filter([id], p) == [];
  }

  /** Toggling never introduces a duplicate. */
  lemma TogglePreservesNoDup(ids: seq<string>, id: string)
    requires NoDup(ids)
    ensures NoDup(Toggle(ids, id))
  {
    if id in ids {
      FilterNoDup(ids, (x: string) => x != id);
    }
  }

  /** Every filter list the clicks can build, starting from the empty one, is duplicate-free. */
  lemma {:induction false} ToggleEachPreservesNoDup(ids: seq<string>, clicks: seq<string>)
    requires NoDup(ids)
    ensures NoDup(ToggleEach(ids, clicks))
    decreases |clicks|
  {
    if clicks != [] {
      TogglePreservesNoDup(ids, clicks[0]);
      ToggleEachPreservesNoDup(Toggle(ids, clicks[0]), clicks[1..]);
    }
  }

  /** "Tout afficher" toggles every id currently in the filter: on a duplicate-free list
      this empties the filter. */
  lemma {:induction false} ToggleAllClears(ids: seq<string>)
    requires NoDup(ids)
    ensures ToggleEach(ids, ids) == []
    decreases |ids|
  {
    if ids != [] {
      var p := (x: string) => x != ids[0];
      assert ids == [ids[0]] + ids[1..];
      assert forall k :: 0 <= k < |ids[1..]| ==> p(ids[1..][k]);
      Sequences.FilterKeepsAll(ids[1..], p);
      assert Toggle(ids, ids[0]) == ids[1..];
      assert NoDup(ids[1..]);
      ToggleAllClears(ids[1..]);
    }
  }
}
