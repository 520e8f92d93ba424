/** The workout list screen (ui/home/HomeFragment.kt, `carregarTreinos`): it
    subscribes to all workouts, keeps those owned by the signed-in user, in
    snapshot order, and shows either them or the empty state. */
module Home {
  import opened Wrappers
  import opened Records
  import opened Adapter

  /** A snapshot is the sequence of its children read as workouts:
      `None` for a child that deserialises to null. */
  type Snapshot = seq<Option<Treino>>

  predicate OwnedBy(t: Treino, uid: string) {
    t.userId == Some(uid)
  }

  /** The workouts of `uid` in the snapshot, in order. */
  function Owned(snapshot: Snapshot, uid: string): (treinos: seq<Treino>)
    ensures |treinos| <= |snapshot|
    ensures forall k :: 0 <= k < |treinos| ==> OwnedBy(treinos[k], uid)
  {
    if snapshot == [] then []
    else
      var last := snapshot[|snapshot| - 1];
      Owned(snapshot[..|snapshot| - 1], uid)
        + (if last.Some? && OwnedBy(last.value, uid) then [last.value] else [])
  }

  /** The loop of `onDataChange`: one pass over the children, appending every
      non-null workout whose `userId` is the user's. */
  method CollectOwned(snapshot: Snapshot, uid: string) returns (treinos: seq<Treino>)
    ensures treinos == Owned(snapshot, uid)
  {
    treinos := [];
    for i := 0 to |snapshot|
      invariant treinos == Owned(snapshot[..i], uid)
    {
      var treino := snapshot[i];
      assert snapshot[..i + 1][..i] == snapshot[..i];
      if treino.Some? {
        if treino.value.userId == Some(uid) {
          treinos := treinos + [treino.value];
        }
      }
    }
    assert snapshot[..|snapshot|] == snapshot;
  }

  /** Filtering a concatenation filters each part and keeps them in order. */
  lemma {:induction false} OwnedAppend(a: Snapshot, b: Snapshot, uid: string)
    ensures Owned(a + b, uid) == Owned(a, uid) + Owned(b, uid)
  {
    if b == [] {
      assert a + b == a;
    } else {
      var n := |b| - 1;
      assert (a + b)[..|a + b| - 1] == a + b[..n];
      assert (a + b)[|a + b| - 1] == b[n];
      OwnedAppend(a, b[..n], uid);
    }
  }

  /** The list holds exactly the non-null children owned by the user. */
  lemma {:induction false} OwnedMembership(snapshot: Snapshot, uid: string, t: Treino)
    ensures t in Owned(snapshot, uid) <==> Some(t) in snapshot && OwnedBy(t, uid)
  {
    if snapshot != [] {
      var init := snapshot[..|snapshot| - 1];
      OwnedMembership(init, uid, t);
      assert snapshot == init + [snapshot[|snapshot| - 1]];
    }
  }

  /** Children that deserialise to null are skipped, wherever they stand. */
  lemma NullChildrenSkipped(a: Snapshot, b: Snapshot, uid: string)
    ensures Owned(a + [None] + b, uid) == Owned(a + b, uid)
  {
    OwnedAppend(a + [None], b, uid);
    OwnedAppend(a, [None], uid);
    OwnedAppend(a, b, uid);
    assert Owned([None], uid) == Owned([], uid) + [];
  }

  /** Two workouts of different owners and a null child: user "u1" sees only
      its own workout. */
  lemma OwnedExample(w1: Treino, w2: Treino)
    requires w1.userId == Some("u1") && w2.userId == Some("u2")
    ensures Owned([Some(w1), Some(w2), None], "u1") == [w1]
  {
    var s: Snapshot := [Some(w1), Some(w2), None];
    assert s[..2][..1] == [Some(w1)] && s[..2] == [Some(w1), Some(w2)];
    assert Owned([Some(w1)], "u1") == [w1] by {
      assert [Some(w1)][..0] == [];
    }
  }

  /** The list screen: its adapter, whether the empty state is shown, and the
      user whose workouts the listener filters for, once subscribed. */
  class HomeScreen {
    const adapter: TreinosAdapter
    var emptyStateShown: bool
    var listenerUid: Option<string>

    constructor (adapter: TreinosAdapter)
      ensures this.adapter == adapter && !emptyStateShown && listenerUid == None
    {
      this.adapter := adapter;
      emptyStateShown := false;
      listenerUid := None;
    }

    /** `carregarTreinos`: without a user, the empty state and no listener. */
    method CarregarTreinos(user: Option<string>)
      modifies this
      ensures user.None? ==> emptyStateShown && listenerUid == old(listenerUid)
      ensures user.Some? ==> listenerUid == user && emptyStateShown == old(emptyStateShown)
    {
      if user.None? {
        emptyStateShown := true;
        return;
      }
      listenerUid := user;
    }

    /** `onDataChange`: an empty result shows the empty state and leaves the
        list alone; otherwise the list is replaced by the result. */
    method OnDataChange(snapshot: Snapshot)
      requires listenerUid.Some?
      modifies this, adapter
      ensures listenerUid == old(listenerUid)
      ensures emptyStateShown <==> Owned(snapshot, listenerUid.value) == []
      ensures adapter.treinos == if Owned(snapshot, listenerUid.value) == [] then old(adapter.treinos)
                                 else Owned(snapshot, listenerUid.value)
    {
      var treinos := CollectOwned(snapshot, listenerUid.value);
      if treinos == [] {
        emptyStateShown := true;
      } else {
        emptyStateShown := false;
        adapter.UpdateTreinos(treinos);
      }
    }

    /** `onCancelled`: the empty state, the list untouched. */
    method OnCancelled()
      modifies this
      ensures emptyStateShown && listenerUid == old(listenerUid)
    {
      emptyStateShown := true;
    }
  }
}
