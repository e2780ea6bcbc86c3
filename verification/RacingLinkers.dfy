/** Concurrent `linkRemote` calls on one object: `unsetNode` and `setNode` lock separately, and other
    nodes may unlink the object or be destroyed in between. */
module RacingLinkers {
  import opened Types
  import Table = ClientTable

  /** One atomic step on the registry entry of the object: by a linking thread; by an `unlinkRemote` or
      a destructor's unlink, which unset it whoever owns it; by the `unregisterNode` after that; or by
      `addSink`. */
  datatype Step =
    | Unset(linker: nat)
    | Set(linker: nat)
    | Unlink
    | Unregister(id: Id)
    | AddSink(sink: Obj, live: set<Obj>)

  function Apply(t: Table.Table, objectId: string, nodeOf: map<nat, Id>, step: Step): Table.Table {
    match step
    case Unset(_) => Table.UnsetNode(t, objectId)
    case Set(l) => Table.SetNode(t, if l in nodeOf then nodeOf[l] else INVALID_ID, objectId)
    case Unlink => Table.UnsetNode(t, objectId)
    case Unregister(id) => Table.Release(t, id)
    case AddSink(sink, live) => Table.AddSink(t, sink, objectId, live)
  }

  function Run(t: Table.Table, objectId: string, nodeOf: map<nat, Id>, steps: seq<Step>): Table.Table {
    if steps == [] then t
    else Apply(Run(t, objectId, nodeOf, steps[..|steps| - 1]), objectId, nodeOf, steps[|steps| - 1])
  }

  /** Where the linkers stand: those between their unset and their set. `None` when some linker
      took a step out of order. Each linker calls `linkRemote` any number of times. */
  function Between(steps: seq<Step>): Option<set<nat>> {
    if steps == [] then Some({})
    else
      var before := Between(steps[..|steps| - 1]);
      if before.None? then None
      else
        match steps[|steps| - 1]
        case Unset(l) => if l in before.value then None else Some(before.value + {l})
        case Set(l) => if l in before.value then Some(before.value - {l}) else None
        case _ => before
  }

  /** Every linker's node has a valid id and stays registered. */
  ghost predicate LinkersStay(steps: seq<Step>, nodeOf: map<nat, Id>) {
    && (forall i | 0 <= i < |steps| && steps[i].Set? ::
          steps[i].linker in nodeOf && nodeOf[steps[i].linker] != INVALID_ID)
    && (forall i | 0 <= i < |steps| && steps[i].Unregister? ::
          steps[i].id != INVALID_ID && steps[i].id !in nodeOf.Values)
  }

  /** Every linker is done besides. */
  ghost predicate CompleteRace(steps: seq<Step>, nodeOf: map<nat, Id>) {
    Between(steps) == Some({}) && LinkersStay(steps, nodeOf)
  }

  predicate Unsets(step: Step) {
    step.Unset? || step.Unlink?
  }

  predicate IsLastUnset(steps: seq<Step>, u: nat) {
    u < |steps| && Unsets(steps[u]) && forall i | u < i < |steps| :: !Unsets(steps[i])
  }

  predicate IsFirstSetAfter(steps: seq<Step>, u: nat, w: nat) {
    u < w < |steps| && steps[w].Set? && forall i | u < i < w :: !steps[i].Set?
  }

  /** A linker in between has no set since its unset; so while someone is in between after the last
      unset, a set is still to come, and when all are done one has come. */
  lemma {:induction false} WhoUnsetMustSet(steps: seq<Step>, u: nat)
    requires u < |steps| && steps[u].Unset? && Between(steps).Some?
    requires forall i | u < i < |steps| :: steps[i] != Set(steps[u].linker)
    ensures steps[u].linker in Between(steps).value
  {
    if u < |steps| - 1 {
      var before := steps[..|steps| - 1];
      assert forall i | 0 <= i < |before| :: before[i] == steps[i];
      WhoUnsetMustSet(before, u);
    }
  }

  /** After the last unset the entry is unset until the first set, and that node's from then on. */
  lemma {:induction false} OwnerSinceLastUnset(t: Table.Table, objectId: string, nodeOf: map<nat, Id>,
                                               steps: seq<Step>, u: nat)
    requires IsLastUnset(steps, u) && LinkersStay(steps, nodeOf)
    ensures var owner := Table.OwnerOf(Run(t, objectId, nodeOf, steps), objectId);
            && ((forall i | u < i < |steps| :: !steps[i].Set?) ==> owner == INVALID_ID)
            && (forall w: nat | IsFirstSetAfter(steps, u, w) :: owner == nodeOf[steps[w].linker])
  {
    var n := |steps| - 1;
    if u < n {
      var before := steps[..n];
      assert forall i | 0 <= i < |before| :: before[i] == steps[i];
      OwnerSinceLastUnset(t, objectId, nodeOf, before, u);
      forall w: nat | IsFirstSetAfter(steps, u, w)
        ensures Table.OwnerOf(Run(t, objectId, nodeOf, steps), objectId) == nodeOf[steps[w].linker]
      {
        if w < n { assert IsFirstSetAfter(before, u, w); }
      }
      if steps[n].Set? && !(forall i | u < i < n :: !steps[i].Set?) {
        var w := FirstSetAfter(before, u);
      }
    }
  }

  lemma {:induction false} FirstSetAfter(steps: seq<Step>, u: nat) returns (w: nat)
    requires exists i :: u < i < |steps| && steps[i].Set?
    ensures IsFirstSetAfter(steps, u, w)
  {
    var before := steps[..|steps| - 1];
    if exists i :: u < i < |before| && before[i].Set? {
      w := FirstSetAfter(before, u);
    } else {
      w := |steps| - 1;
      assert forall i | u < i < w :: before[i] == steps[i];
    }
  }

  lemma {:induction false} LastUnset(steps: seq<Step>) returns (u: nat)
    requires exists i :: 0 <= i < |steps| && Unsets(steps[i])
    ensures IsLastUnset(steps, u)
  {
    var last := |steps| - 1;
    if Unsets(steps[last]) {
      u := last;
    } else {
      var before := steps[..last];
      assert exists i :: 0 <= i < |before| && Unsets(before[i]) by {
        var i :| 0 <= i < |steps| && Unsets(steps[i]);
        assert before[i] == steps[i];
      }
      u := LastUnset(before);
    }
  }

  /** Main result: however linkers, unlinks and `addSink` interleave, the object ends unset exactly if no
      `setNode` follows the last step that unsets it, and else with the node of the first that does. */
  lemma EndsUnsetIffNoSetFollows(t: Table.Table, objectId: string, nodeOf: map<nat, Id>, steps: seq<Step>, u: nat)
    requires IsLastUnset(steps, u) && LinkersStay(steps, nodeOf)
    ensures var owner := Table.OwnerOf(Run(t, objectId, nodeOf, steps), objectId);
            && (owner == INVALID_ID <==> forall i | u < i < |steps| :: !steps[i].Set?)
            && (forall w: nat | IsFirstSetAfter(steps, u, w) :: owner == nodeOf[steps[w].linker])
  {
    OwnerSinceLastUnset(t, objectId, nodeOf, steps, u);
    if exists i :: u < i < |steps| && steps[i].Set? {
      var w := FirstSetAfter(steps, u);
    }
  }

  /** Main result: when all linkers are done and the last unset was a linker's, as it is when nobody
      unlinks, the object ends up with the node of the first `setNode` after it: always one of the
      linkers, never unset. */
  lemma SomeLinkerWins(t: Table.Table, objectId: string, nodeOf: map<nat, Id>, steps: seq<Step>)
    returns (u: nat, w: nat)
    requires CompleteRace(steps, nodeOf)
    requires exists i :: 0 <= i < |steps| && Unsets(steps[i])
    ensures IsLastUnset(steps, u)
    ensures steps[u].Unset? ==>
              && IsFirstSetAfter(steps, u, w)
              && Table.OwnerOf(Run(t, objectId, nodeOf, steps), objectId) == nodeOf[steps[w].linker] != INVALID_ID
    ensures (forall i | 0 <= i < |steps| :: !steps[i].Unlink?) ==> steps[u].Unset?
  {
    u := LastUnset(steps);
    w := 0;
    if steps[u].Unset? {
      if forall i | u < i < |steps| :: steps[i] != Set(steps[u].linker) {
        WhoUnsetMustSet(steps, u);
        assert false;
      }
      w := FirstSetAfter(steps, u);
      OwnerSinceLastUnset(t, objectId, nodeOf, steps, u);
    }
  }

  /** So a link that is complete can be lost: another node's destructor listed the object before the link
      took it over, and unsets it after. */
  lemma DestructorLosesALink(objectId: string, former: Id, id: Id)
    requires former != INVALID_ID && id != INVALID_ID && former != id
    ensures var t := Table.SetNode(map[], former, objectId);
            var steps := [Unset(0), Set(0), Unlink, Unregister(former)];
            && objectId in Table.Owned(t, former) && CompleteRace(steps, map[0 := id])
            && Table.OwnerOf(Run(t, objectId, map[0 := id], steps[..2]), objectId) == id
            && Table.OwnerOf(Run(t, objectId, map[0 := id], steps), objectId) == INVALID_ID
  {
    var t := Table.SetNode(map[], former, objectId);
    var nodeOf := map[0 := id];
    var steps := [Unset(0), Set(0), Unlink, Unregister(former)];
    assert steps[..3][..2] == steps[..2] && steps[..2][..1] == steps[..1] && steps[..1][..0] == [];
    assert steps[..4] == steps;
    assert Between(steps[..1][..0]) == Some({}) && {} + {0} == {0} && {0} - {0} == {};
    assert Between(steps[..1]) == Some({0});
    assert Between(steps[..2]) == Some({});
    assert Between(steps[..3]) == Some({});
    EndsUnsetIffNoSetFollows(t, objectId, nodeOf, steps[..2], 0);
    assert IsFirstSetAfter(steps[..2], 0, 1);
    EndsUnsetIffNoSetFollows(t, objectId, nodeOf, steps, 2);
  }
}
