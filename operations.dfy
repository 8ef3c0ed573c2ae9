/**
 Runs of the actions a user can take in the dashboard: publish a translation,
 like a listed blog, edit or delete a blog chosen from the current ids.
 Each action is enabled only where the UI offers it.
 */
module Operations {
  import opened Records
  import opened Lifecycle
  import opened BlogState

  datatype Op =
    | PublishOp(id: string, language: string, text: string, timestamp: string)
    | LikeOp(id: string)
    | EditOp(id: string, newContent: string, timestamp: string)
    | DeleteOp(id: string, timestamp: string)

  /**
   Publish gets a fresh uuid; the like button is drawn for each live blog,
   and edit and delete pick their id from the keys of `blog_data`.
   */
  predicate Enabled(s: State, op: Op) {
    match op
    case PublishOp(id, _, _, _) => IsFresh(s, id)
    case LikeOp(id) => id in s.blogData
    case EditOp(id, _, _) => id in s.blogData
    case DeleteOp(id, _) => id in s.blogData
  }

  function Apply(s: State, op: Op): (r: State)
    requires Enabled(s, op)
    ensures CountersGrow(s, r)
    ensures s.editHistory <= r.editHistory
  {
    match op
    case PublishOp(id, language, text, timestamp) => Publish(s, id, language, text, timestamp)
    case LikeOp(id) => IncrementStat(s, id, "like")
    case EditOp(id, newContent, timestamp) => Edit(s, id, newContent, timestamp)
    case DeleteOp(id, timestamp) => Delete(s, id, timestamp)
  }

  /** Every action of `ops` is enabled in the state the earlier ones leave. */
  predicate Admissible(s: State, ops: seq<Op>)
    decreases |ops|
  {
    ops == [] || (Enabled(s, ops[0]) && Admissible(Apply(s, ops[0]), ops[1..]))
  }

  /** The state after the actions `ops`, in order; counters only grow and the log only gets longer. */
  function Run(s: State, ops: seq<Op>): (r: State)
    requires Admissible(s, ops)
    decreases |ops|
    ensures CountersGrow(s, r)
    ensures s.editHistory <= r.editHistory
  {
    if ops == [] then s else Run(Apply(s, ops[0]), ops[1..])
  }

  lemma ApplyPreservesValid(s: State, op: Op)
    requires Valid(s) && Enabled(s, op)
    ensures Valid(Apply(s, op))
  {
    match op
    case PublishOp(id, language, text, timestamp) => PublishPreservesValid(s, id, language, text, timestamp);
    case LikeOp(id) => IncrementPreservesValid(s, id, "like");
    case EditOp(id, newContent, timestamp) => EditPreservesValid(s, id, newContent, timestamp);
    case DeleteOp(id, timestamp) => DeletePreservesValid(s, id, timestamp);
  }

  lemma {:induction false} RunPreservesValid(s: State, ops: seq<Op>)
    requires Valid(s) && Admissible(s, ops)
    ensures Valid(Run(s, ops))
    decreases |ops|
  {
    if ops != [] {
      ApplyPreservesValid(s, ops[0]);
      RunPreservesValid(Apply(s, ops[0]), ops[1..]);
    }
  }

  /** A deleted id stays deleted: no later action brings it back. */
  lemma {:induction false} RemovedIsFinal(s: State, ops: seq<Op>, id: string)
    requires Valid(s) && Admissible(s, ops) && StatusOf(s.editHistory, id) == Removed
    ensures StatusOf(Run(s, ops).editHistory, id) == Removed
    ensures id !in Run(s, ops).blogData
    decreases |ops|
  {
    if ops != [] {
      var op := ops[0];
      var t := Apply(s, op);
      assert op.id != id;
      match op {
        case PublishOp(i, language, text, timestamp) => LogAppend(s.editHistory, HistoryEntry(i, Published, timestamp));
        case LikeOp(_) =>
        case EditOp(i, newContent, timestamp) => LogAppend(s.editHistory, HistoryEntry(i, Edited, timestamp));
        case DeleteOp(i, timestamp) => LogAppend(s.editHistory, HistoryEntry(i, Deleted, timestamp));
      }
      ApplyPreservesValid(s, op);
      RemovedIsFinal(t, ops[1..], id);
    }
  }

  /** After deleting `id`, it is never offered for edit or view again, whatever follows. */
  lemma DeletedStaysGone(s: State, id: string, timestamp: string, ops: seq<Op>)
    requires Valid(s) && id in s.blogData && Admissible(Delete(s, id, timestamp), ops)
    ensures id !in Run(Delete(s, id, timestamp), ops).blogData
  {
    DeletePreservesValid(s, id, timestamp);
    RemovedIsFinal(Delete(s, id, timestamp), ops, id);
  }

  /** An id once published is not fresh any more, so a second publish always gets a different id. */
  lemma PublishSpendsId(s: State, id: string, language: string, text: string, timestamp: string, op: Op)
    requires Valid(s) && IsFresh(s, id)
    requires op.PublishOp? && op.id == id
    ensures !Enabled(Publish(s, id, language, text, timestamp), op)
  {
    PublishPreservesValid(s, id, language, text, timestamp);
  }

  /** What the dashboard's own actions leave: each blog read as viewed exactly once, and nothing shared. */
  ghost predicate ViewedOnceNeverShared(s: State) {
    && s.blogShares == map[]
    && forall id :: id in s.blogViews ==> s.blogViews[id] == 1
  }

  lemma {:induction false} RunKeepsViewedOnceNeverShared(s: State, ops: seq<Op>)
    requires Valid(s) && ViewedOnceNeverShared(s) && Admissible(s, ops)
    ensures ViewedOnceNeverShared(Run(s, ops))
    decreases |ops|
  {
    if ops != [] {
      if ops[0].PublishOp? {
        FreshIsUnused(s, ops[0].id);
      }
      ApplyPreservesValid(s, ops[0]);
      RunKeepsViewedOnceNeverShared(Apply(s, ops[0]), ops[1..]);
    }
  }

  /** Publish a fresh blog and like it twice: one view, two likes, no shares. */
  lemma PublishThenLikeTwice(s: State, id: string, language: string, text: string, timestamp: string)
    requires Valid(s) && IsFresh(s, id)
    ensures var ops := [PublishOp(id, language, text, timestamp), LikeOp(id), LikeOp(id)];
            Admissible(s, ops)
            && Count(Run(s, ops).blogViews, id) == 1
            && Count(Run(s, ops).blogLikes, id) == 2
            && Count(Run(s, ops).blogShares, id) == 0
  {
    FreshIsUnused(s, id);
    var ops := [PublishOp(id, language, text, timestamp), LikeOp(id), LikeOp(id)];
    var p := Publish(s, id, language, text, timestamp);
    var l1 := IncrementStat(p, id, "like");
    var l2 := IncrementStat(l1, id, "like");
    assert ops[1..] == [LikeOp(id), LikeOp(id)];
    assert ops[1..][1..] == [LikeOp(id)];
    assert [LikeOp(id)][1..] == [];
    assert Admissible(l1, [LikeOp(id)]);
    assert Run(l1, [LikeOp(id)]) == l2;
    assert Run(p, ops[1..]) == l2;
  }
}
