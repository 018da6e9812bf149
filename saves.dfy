/**
 * The save-slot list of the browser front end: numbered saved games, the
 * next free number, merging an imported list, saving and deleting.
 *
 * Saved game states and dates are opaque here: a state is the identity of
 * the game object and of its interface list plus the colour mode, a date
 * its timestamp. Two saves are equal when every field is.
 */
module Saves {

  /** The stored game: the game and its interface list, each abstracted
    * to an opaque number, and the colour mode in force. */
  datatype GameState = GameState(game: nat, interface: nat, colorMode: string)

  datatype Date = Date(timestamp: int)

  datatype GameSave = GameSave(nb: int, name: string, save: GameState, date: Date)

  /** No two saves share a number. */
  predicate UniqueIds(saves: seq<GameSave>)
  {
    forall i, j :: 0 <= i < j < |saves| ==> saves[i].nb != saves[j].nb
  }

  /** The largest number in a non-empty list. */
  function MaxId(saves: seq<GameSave>): (m: int)
    requires saves != []
    ensures forall i :: 0 <= i < |saves| ==> saves[i].nb <= m
    ensures exists i :: 0 <= i < |saves| && saves[i].nb == m
  {
    if |saves| == 1 then saves[0].nb
    else
      var rest := MaxId(saves[1..]);
      assert forall i :: 1 <= i < |saves| ==> saves[i] == saves[1..][i - 1];
      if saves[0].nb >= rest then saves[0].nb else rest
  }

  /** `get_next_id`: 0 for an empty list, one more than the largest number
    * otherwise. */
  function NextId(saves: seq<GameSave>): (n: int)
  {
    if saves == [] then 0 else MaxId(saves) + 1
  }

  /** The next number is above every number in use, and is the smallest
    * such number when the list is not empty. */
  lemma {:induction false} NextIdIsFresh(saves: seq<GameSave>)
    ensures forall i :: 0 <= i < |saves| ==> saves[i].nb < NextId(saves)
    ensures saves == [] ==> NextId(saves) == 0
    ensures saves != [] ==> exists i :: 0 <= i < |saves| && saves[i].nb == NextId(saves) - 1
  {
    if saves != [] {
      var i :| 0 <= i < |saves| && saves[i].nb == MaxId(saves);
      assert saves[i].nb == NextId(saves) - 1;
    }
  }

  // ---------------------------------------------------------------------
  // merge
  // ---------------------------------------------------------------------

  /** `merge` from the incoming save `incoming[0]` on, with `next` the
    * number the next added save gets: a save equal in every field to one
    * already in the list is skipped, any other is renumbered and appended. */
  function MergeFrom(local: seq<GameSave>, incoming: seq<GameSave>, next: int): seq<GameSave>
    decreases |incoming|
  {
    if incoming == [] then local
    else if incoming[0] in local then MergeFrom(local, incoming[1..], next)
    else MergeFrom(local + [incoming[0].(nb := next)], incoming[1..], next + 1)
  }

  function Merged(local: seq<GameSave>, incoming: seq<GameSave>): seq<GameSave>
  {
    MergeFrom(local, incoming, NextId(local))
  }

  /** The positions in `incoming` of the saves `MergeFrom` appends. */
  function Picks(local: seq<GameSave>, incoming: seq<GameSave>, next: int): seq<nat>
    decreases |incoming|
  {
    if incoming == [] then []
    else if incoming[0] in local then Shift(Picks(local, incoming[1..], next))
    else [0] + Shift(Picks(local + [incoming[0].(nb := next)], incoming[1..], next + 1))
  }

  function Shift(p: seq<nat>): (q: seq<nat>)
    ensures |q| == |p| && forall j :: 0 <= j < |p| ==> q[j] == p[j] + 1
  {
    if p == [] then [] else [p[0] + 1] + Shift(p[1..])
  }

  /** How many of the (increasing) positions `p` come before position `k`:
    * the number of saves added by the time `merge` reaches `incoming[k]`. */
  function Taken(p: seq<nat>, k: nat): (t: nat)
    ensures t <= |p|
  {
    if p == [] || p[0] >= k then 0 else 1 + Taken(p[1..], k)
  }

  /** `r` is `local`, then the incoming saves at positions `p` numbered
    * from `next`. */
  ghost predicate Placed(local: seq<GameSave>, incoming: seq<GameSave>, next: int, r: seq<GameSave>, p: seq<nat>)
  {
    |r| == |local| + |p| && r[..|local|] == local
    && forall j :: 0 <= j < |p| ==> p[j] < |incoming| && r[|local| + j] == incoming[p[j]].(nb := next + j)
  }

  predicate Increasing(p: seq<nat>)
  {
    forall a, b :: 0 <= a < b < |p| ==> p[a] < p[b]
  }

  /** A picked save was absent from the list as it stood when it was
    * reached: `local` and the saves picked before it. */
  ghost predicate PickedAbsent(local: seq<GameSave>, incoming: seq<GameSave>, r: seq<GameSave>, p: seq<nat>)
  {
    forall j :: 0 <= j < |p| && p[j] < |incoming| && |local| + j <= |r| ==> incoming[p[j]] !in r[..|local| + j]
  }

  /** A save not picked was present in the list as it stood when it was
    * reached. */
  ghost predicate SkippedPresent(local: seq<GameSave>, incoming: seq<GameSave>, r: seq<GameSave>, p: seq<nat>)
  {
    forall k :: 0 <= k < |incoming| && k !in p && |local| + Taken(p, k) <= |r| ==> incoming[k] in r[..|local| + Taken(p, k)]
  }

  /** `r` is `local`, then the incoming saves at positions `p` (strictly
    * increasing) numbered from `next`; a save is picked exactly when the
    * list as it stood when it was reached did not hold it. */
  ghost predicate Shape(local: seq<GameSave>, incoming: seq<GameSave>, next: int, r: seq<GameSave>, p: seq<nat>)
  {
    && Placed(local, incoming, next, r, p)
    && Increasing(p)
    && PickedAbsent(local, incoming, r, p)
    && SkippedPresent(local, incoming, r, p)
  }

  lemma {:induction false} TakenShift(p: seq<nat>, k: nat)
    ensures Taken(Shift(p), k + 1) == Taken(p, k)
  {
    if p != [] {
      assert Shift(p)[1..] == Shift(p[1..]);
      TakenShift(p[1..], k);
    }
  }

  /** A position not among `Shift(p)`, past 0, is one past a position not
    * among `p`. */
  lemma {:induction false} NotShifted(p: seq<nat>, k: nat)
    requires 0 < k && k !in Shift(p)
    ensures k - 1 !in p
  {
    forall j | 0 <= j < |p| ensures p[j] != k - 1 {
      assert Shift(p)[j] in Shift(p);
    }
  }

  lemma {:induction false} ShapeSkip(local: seq<GameSave>, incoming: seq<GameSave>, next: int, r: seq<GameSave>, p': seq<nat>)
    requires incoming != [] && incoming[0] in local
    requires Shape(local, incoming[1..], next, r, p')
    ensures Shape(local, incoming, next, r, Shift(p'))
  {
    SkipKeepsOrder(local, incoming, next, r, p');
    SkipPicked(local, incoming, r, p');
    SkipSkipped(local, incoming, r, p');
  }

  lemma {:induction false} SkipKeepsOrder(local: seq<GameSave>, incoming: seq<GameSave>, next: int, r: seq<GameSave>, p': seq<nat>)
    requires incoming != []
    requires Placed(local, incoming[1..], next, r, p') && Increasing(p')
    ensures Placed(local, incoming, next, r, Shift(p')) && Increasing(Shift(p'))
  {
    var tail := incoming[1..];
    var p := Shift(p');
    forall j | 0 <= j < |p|
      ensures p[j] < |incoming| && r[|local| + j] == incoming[p[j]].(nb := next + j)
    {
      assert tail[p'[j]] == incoming[p[j]];
    }
  }

  lemma {:induction false} SkipPicked(local: seq<GameSave>, incoming: seq<GameSave>, r: seq<GameSave>, p': seq<nat>)
    requires incoming != []
    requires PickedAbsent(local, incoming[1..], r, p')
    ensures PickedAbsent(local, incoming, r, Shift(p'))
  {
    var tail := incoming[1..];
    var p := Shift(p');
    forall j | 0 <= j < |p| && p[j] < |incoming| && |local| + j <= |r|
      ensures incoming[p[j]] !in r[..|local| + j]
    {
      assert tail[p'[j]] == incoming[p[j]];
    }
  }

  lemma {:induction false} SkipSkipped(local: seq<GameSave>, incoming: seq<GameSave>, r: seq<GameSave>, p': seq<nat>)
    requires incoming != [] && incoming[0] in local
    requires |local| <= |r| && r[..|local|] == local
    requires SkippedPresent(local, incoming[1..], r, p')
    ensures SkippedPresent(local, incoming, r, Shift(p'))
  {
    var tail := incoming[1..];
    var p := Shift(p');
    forall k | 0 <= k < |incoming| && k !in p && |local| + Taken(p, k) <= |r|
      ensures incoming[k] in r[..|local| + Taken(p, k)]
    {
      if k == 0 {
        assert incoming[0] in r[..|local|];
      } else {
        NotShifted(p', k);
        TakenShift(p', k - 1);
        assert tail[k - 1] == incoming[k];
      }
    }
  }

  lemma {:induction false} ShapeAdd(local: seq<GameSave>, incoming: seq<GameSave>, next: int, r: seq<GameSave>, p': seq<nat>)
    requires incoming != [] && incoming[0] !in local
    requires Shape(local + [incoming[0].(nb := next)], incoming[1..], next + 1, r, p')
    ensures Shape(local, incoming, next, r, [0] + Shift(p'))
  {
    KeepsPrefix(local, [incoming[0].(nb := next)], r);
    AddedInOrder(local, incoming, next, r, p');
    IncreasingAdd(p');
    AddPicked(local, incoming, next, r, p');
    AddSkipped(local, incoming, next, r, p');
  }

  lemma {:induction false} KeepsPrefix(local: seq<GameSave>, added: seq<GameSave>, r: seq<GameSave>)
    requires |local + added| <= |r| && r[..|local + added|] == local + added
    ensures r[..|local|] == local
  {
    assert r[..|local|] == r[..|local + added|][..|local|];
  }

  /** Picking position 0 in front of positions shifted by one keeps them
    * strictly increasing. */
  lemma {:induction false} IncreasingAdd(p': seq<nat>)
    requires Increasing(p')
    ensures Increasing([0] + Shift(p'))
  {
  }

  lemma {:induction false} AddedInOrder(local: seq<GameSave>, incoming: seq<GameSave>, next: int, r: seq<GameSave>, p': seq<nat>)
    requires incoming != []
    requires Placed(local + [incoming[0].(nb := next)], incoming[1..], next + 1, r, p')
    requires r[..|local|] == local
    ensures Placed(local, incoming, next, r, [0] + Shift(p'))
  {
    var tail := incoming[1..];
    var local' := local + [incoming[0].(nb := next)];
    var p := [0] + Shift(p');
    assert r[|local|] == r[..|local'|][|local|];
    forall j | 0 <= j < |p|
      ensures p[j] < |incoming| && r[|local| + j] == incoming[p[j]].(nb := next + j)
    {
      if j > 0 {
        assert p[j] == p'[j - 1] + 1;
        assert r[|local'| + (j - 1)] == tail[p'[j - 1]].(nb := next + 1 + (j - 1));
      }
    }
  }

  lemma {:induction false} AddPicked(local: seq<GameSave>, incoming: seq<GameSave>, next: int, r: seq<GameSave>, p': seq<nat>)
    requires incoming != [] && incoming[0] !in local
    requires PickedAbsent(local + [incoming[0].(nb := next)], incoming[1..], r, p')
    requires |local| <= |r| && r[..|local|] == local
    ensures PickedAbsent(local, incoming, r, [0] + Shift(p'))
  {
    var tail := incoming[1..];
    var p := [0] + Shift(p');
    forall j | 0 <= j < |p| && p[j] < |incoming| && |local| + j <= |r|
      ensures incoming[p[j]] !in r[..|local| + j]
    {
      if j > 0 {
        assert p[j] == p'[j - 1] + 1;
        assert tail[p'[j - 1]] == incoming[p[j]];
      }
    }
  }

  lemma {:induction false} AddSkipped(local: seq<GameSave>, incoming: seq<GameSave>, next: int, r: seq<GameSave>, p': seq<nat>)
    requires incoming != []
    requires SkippedPresent(local + [incoming[0].(nb := next)], incoming[1..], r, p')
    ensures SkippedPresent(local, incoming, r, [0] + Shift(p'))
  {
    var tail := incoming[1..];
    var p := [0] + Shift(p');
    forall k | 0 <= k < |incoming| && k !in p && |local| + Taken(p, k) <= |r|
      ensures incoming[k] in r[..|local| + Taken(p, k)]
    {
      assert k != 0 && p[1..] == Shift(p');
      assert k !in Shift(p');
      NotShifted(p', k);
      TakenShift(p', k - 1);
      assert tail[k - 1] == incoming[k];
    }
  }

  /** What `merge` does, completely: the old list stays as it was and in
    * front; after it come the picked incoming saves, in their incoming
    * order, numbered consecutively from `next`. A save is picked exactly
    * when it is not in the list as it stands when the loop reaches it: a
    * picked save was absent then, and every save not picked was present
    * then, unchanged. */
  lemma {:induction false} MergeShape(local: seq<GameSave>, incoming: seq<GameSave>, next: int)
    ensures Shape(local, incoming, next, MergeFrom(local, incoming, next), Picks(local, incoming, next))
    decreases |incoming|
  {
    if incoming == [] {
      assert local[..|local|] == local;
    } else if incoming[0] in local {
      var r := MergeFrom(local, incoming[1..], next);
      var p := Picks(local, incoming[1..], next);
      assert MergeFrom(local, incoming, next) == r && Picks(local, incoming, next) == Shift(p);
      MergeShape(local, incoming[1..], next);
      ShapeSkip(local, incoming, next, r, p);
    } else {
      var local' := local + [incoming[0].(nb := next)];
      var r := MergeFrom(local', incoming[1..], next + 1);
      var p := Picks(local', incoming[1..], next + 1);
      assert MergeFrom(local, incoming, next) == r && Picks(local, incoming, next) == [0] + Shift(p);
      MergeShape(local', incoming[1..], next + 1);
      ShapeAdd(local, incoming, next, r, p);
    }
  }

  /** Merging never changes, reorders or renumbers a save already there,
    * adds at most one save per incoming save, and numbers the added ones
    * `get_next_id()`, `get_next_id() + 1`, ... */
  lemma {:induction false} MergeKeepsExisting(local: seq<GameSave>, incoming: seq<GameSave>)
    ensures var r := Merged(local, incoming);
      |local| <= |r| <= |local| + |incoming| && r[..|local|] == local
      && forall j :: |local| <= j < |r| ==> r[j].nb == NextId(local) + (j - |local|)
  {
    var next := NextId(local);
    MergeShape(local, incoming, next);
    var p := Picks(local, incoming, next);
    var r := Merged(local, incoming);
    forall j | |local| <= j < |r|
      ensures r[j].nb == next + (j - |local|)
    {
      assert r[|local| + (j - |local|)] == incoming[p[j - |local|]].(nb := next + (j - |local|));
    }
    IncreasingBound(p, |incoming|);
  }

  /** Strictly increasing positions below `n` number at most `n`. */
  lemma {:induction false} IncreasingBound(p: seq<nat>, n: nat)
    requires forall j :: 0 <= j < |p| ==> p[j] < n
    requires forall a, b :: 0 <= a < b < |p| ==> p[a] < p[b]
    ensures |p| <= n
    decreases n
  {
    if p != [] {
      var init := p[..|p| - 1];
      assert forall j :: 0 <= j < |init| ==> init[j] < p[|p| - 1];
      IncreasingBound(init, p[|p| - 1]);
    }
  }

  /** If the numbers were unique before `merge`, they are unique after. */
  lemma {:induction false} MergeKeepsIdsUnique(local: seq<GameSave>, incoming: seq<GameSave>)
    requires UniqueIds(local)
    ensures UniqueIds(Merged(local, incoming))
  {
    MergeKeepsExisting(local, incoming);
    NextIdIsFresh(local);
    var r := Merged(local, incoming);
    forall i, j | 0 <= i < j < |r|
      ensures r[i].nb != r[j].nb
    {
      if j < |local| {
        assert r[i] == local[i] && r[j] == local[j];
      } else if i < |local| {
        assert r[i] == local[i];
      }
    }
  }

  /** Merging saves that are all present already changes nothing; in
    * particular, merging a list into itself. */
  lemma {:induction false} MergeKnown(local: seq<GameSave>, incoming: seq<GameSave>, next: int)
    requires forall k :: 0 <= k < |incoming| ==> incoming[k] in local
    ensures MergeFrom(local, incoming, next) == local
    decreases |incoming|
  {
    if incoming != [] {
      MergeKnown(local, incoming[1..], next);
    }
  }

  lemma {:induction false} MergeSelf(saves: seq<GameSave>)
    ensures Merged(saves, saves) == saves
  {
    MergeKnown(saves, saves, NextId(saves));
  }

  /** Merging twice the same saves, as values, adds them twice: a save
    * taken in is renumbered, so the incoming original is not found the
    * second time. Merge is idempotent only through the renumbering done in
    * place on the incoming objects, which the model does not share. */
  lemma {:induction false} MergeTwiceAddsAgain(s: GameSave)
    ensures var once := Merged([], [s]);
      once == [s.(nb := 0)]
      && (s.nb != 0 ==> Merged(once, [s]) == [s.(nb := 0), s.(nb := 1)])
  {
    var none: seq<GameSave> := [];
    assert [s][1..] == [];
    assert none + [s.(nb := 0)] == [s.(nb := 0)];
    assert MergeFrom(none, [s], 0) == MergeFrom([s.(nb := 0)], [], 1);
    var once := [s.(nb := 0)];
    if s.nb != 0 {
      assert s !in once;
      assert NextId(once) == 1;
      assert MergeFrom(once, [s], 1) == MergeFrom(once + [s.(nb := 1)], [], 2);
    }
  }

  // ---------------------------------------------------------------------
  // delete_save
  // ---------------------------------------------------------------------

  /** The list comprehension of `delete_save`: the saves whose number is
    * not `id`, in their order. */
  function Without(saves: seq<GameSave>, id: int): (r: seq<GameSave>)
    ensures |r| <= |saves|
    ensures forall e :: e in r <==> e in saves && e.nb != id
  {
    if saves == [] then []
    else if saves[0].nb == id then Without(saves[1..], id)
    else [saves[0]] + Without(saves[1..], id)
  }

  /** Deleting works piecewise, so the kept saves stay in their order. */
  lemma {:induction false} WithoutSplits(a: seq<GameSave>, b: seq<GameSave>, id: int)
    ensures Without(a + b, id) == Without(a, id) + Without(b, id)
  {
    if a == [] {
      assert a + b == b;
    } else {
      assert (a + b)[1..] == a[1..] + b;
      WithoutSplits(a[1..], b, id);
    }
  }

  /** Deleting a number no save has changes nothing. */
  lemma {:induction false} WithoutAbsent(saves: seq<GameSave>, id: int)
    requires forall i :: 0 <= i < |saves| ==> saves[i].nb != id
    ensures Without(saves, id) == saves
  {
    if saves != [] {
      WithoutAbsent(saves[1..], id);
    }
  }

  /** Deleting keeps the numbers unique. */
  lemma {:induction false} WithoutKeepsIdsUnique(saves: seq<GameSave>, id: int)
    requires UniqueIds(saves)
    ensures UniqueIds(Without(saves, id))
  {
    if saves != [] {
      var tail := saves[1..];
      assert forall i :: 0 <= i < |tail| ==> tail[i] == saves[i + 1];
      WithoutKeepsIdsUnique(tail, id);
      if saves[0].nb != id {
        var rest := Without(tail, id);
        forall e | e in rest ensures e.nb != saves[0].nb {
          var k :| 0 <= k < |tail| && tail[k] == e;
        }
        UniqueCons(saves[0], rest);
      }
    }
  }

  /** A save numbered apart from a list of unique numbers can go in front. */
  lemma {:induction false} UniqueCons(s: GameSave, rest: seq<GameSave>)
    requires UniqueIds(rest) && forall e :: e in rest ==> e.nb != s.nb
    ensures UniqueIds([s] + rest)
  {
    var r := [s] + rest;
    forall i, j | 0 <= i < j < |r| ensures r[i].nb != r[j].nb {
      assert r[j] == rest[j - 1];
      if i > 0 {
        assert r[i] == rest[i - 1];
      }
    }
  }

  /** With unique numbers, deleting a number in use removes exactly one
    * save. */
  lemma {:induction false} WithoutRemovesOne(saves: seq<GameSave>, k: nat, id: int)
    requires UniqueIds(saves) && k < |saves| && saves[k].nb == id
    ensures |Without(saves, id)| == |saves| - 1
  {
    var tail := saves[1..];
    assert forall i :: 0 <= i < |tail| ==> tail[i] == saves[i + 1];
    if k == 0 {
      WithoutAbsent(tail, id);
    } else {
      WithoutRemovesOne(tail, k - 1, id);
    }
  }

  // ---------------------------------------------------------------------
  // The list as the browser front end keeps it
  // ---------------------------------------------------------------------

  class GameSaves {
    var saves: seq<GameSave>

    /** The list's invariant: no two saves share a number. */
    predicate Valid()
      reads this
    {
      UniqueIds(saves)
    }

    constructor()
      ensures saves == [] && Valid()
    {
      saves := [];
    }

    /** `merge(other)`: walk the incoming saves, appending each one not
      * already present with the next number. */
    method Merge(other: seq<GameSave>)
      requires Valid()
      modifies this
      ensures saves == Merged(old(saves), other)
      ensures Valid()
    {
      ghost var before := saves;
      var nextId := NextId(saves);
      var i := 0;
      while i < |other|
        invariant i <= |other|
        invariant MergeFrom(saves, other[i..], nextId) == Merged(before, other)
      {
        if other[i] !in saves {
          saves := saves + [other[i].(nb := nextId)];
          nextId := nextId + 1;
        }
        i := i + 1;
      }
      MergeKeepsIdsUnique(before, other);
    }

    /** `save_game`: the current state, under the name typed in and the
      * current date, with the next number. */
    method SaveGame(name: string, state: GameState, time: Date)
      requires Valid()
      modifies this
      ensures saves == old(saves) + [GameSave(NextId(old(saves)), name, state, time)]
      ensures Valid()
    {
      var id := NextId(saves);
      SaveKeepsIdsUnique(saves, name, state, time);
      saves := saves + [GameSave(id, name, state, time)];
    }

    /** `delete_save(id)`. */
    method DeleteSave(id: int)
      requires Valid()
      modifies this
      ensures saves == Without(old(saves), id)
      ensures Valid()
    {
      WithoutKeepsIdsUnique(saves, id);
      saves := Without(saves, id);
    }
  }

  /** Saving keeps the numbers unique: the new save's number is above
    * every number in use. */
  lemma {:induction false} SaveKeepsIdsUnique(saves: seq<GameSave>, name: string, state: GameState, time: Date)
    requires UniqueIds(saves)
    ensures UniqueIds(saves + [GameSave(NextId(saves), name, state, time)])
  {
    NextIdIsFresh(saves);
  }
}
