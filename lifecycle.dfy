/**
 The life of one blog id, read off the append-only edit history:
 it is published once, edited any number of times, and deleted at most once,
 after which nothing more happens to it.
 */
module Lifecycle {
  import opened Records

  /** Where an id stands after some history: never mentioned, live, deleted, or a history the dashboard cannot produce. */
  datatype Status = Unseen | Live | Removed | Invalid

  /** One logged action applied to the status of the id it names. */
  function Step(st: Status, a: Action): Status {
    match (st, a)
    case (Unseen, Published) => Live
    case (Live, Edited) => Live
    case (Live, Deleted) => Removed
    case _ => Invalid
  }

  /** The status of `id` after replaying `h`, oldest entry first, from `st`. */
  function StatusAfter(st: Status, h: seq<HistoryEntry>, id: string): Status
    decreases |h|
  {
    if h == [] then st
    else StatusAfter(if h[0].blogId == id then Step(st, h[0].action) else st, h[1..], id)
  }

  /** The status of `id` according to the whole history `h`. */
  function StatusOf(h: seq<HistoryEntry>, id: string): Status {
    StatusAfter(Unseen, h, id)
  }

  /** Some entry of `h` is about `id`. */
  predicate Mentions(h: seq<HistoryEntry>, id: string) {
    exists i :: 0 <= i < |h| && h[i].blogId == id
  }

  /** Appending one entry moves only the status of the id it names, by one Step. */
  lemma {:induction false} StatusAfterAppend(st: Status, h: seq<HistoryEntry>, e: HistoryEntry, id: string)
    ensures StatusAfter(st, h + [e], id)
         == if e.blogId == id then Step(StatusAfter(st, h, id), e.action) else StatusAfter(st, h, id)
    decreases |h|
  {
    if h == [] {
      assert [e][1..] == [];
    } else {
      assert (h + [e])[0] == h[0];
      assert (h + [e])[1..] == h[1..] + [e];
      StatusAfterAppend(if h[0].blogId == id then Step(st, h[0].action) else st, h[1..], e, id);
    }
  }

  /** The same fact for every id at once, from the start of the history. */
  lemma LogAppend(h: seq<HistoryEntry>, e: HistoryEntry)
    ensures forall k :: StatusOf(h + [e], k)
                     == if k == e.blogId then Step(StatusOf(h, k), e.action) else StatusOf(h, k)
  {
    forall k
      ensures StatusOf(h + [e], k)
           == if k == e.blogId then Step(StatusOf(h, k), e.action) else StatusOf(h, k)
    {
      StatusAfterAppend(Unseen, h, e, k);
    }
  }

  /** An id is Unseen exactly when it started Unseen and no entry mentions it: no action leads back to Unseen. */
  lemma {:induction false} UnseenIffUnmentioned(st: Status, h: seq<HistoryEntry>, id: string)
    ensures StatusAfter(st, h, id) == Unseen <==> st == Unseen && !Mentions(h, id)
    decreases |h|
  {
    if h != [] {
      var next := if h[0].blogId == id then Step(st, h[0].action) else st;
      UnseenIffUnmentioned(next, h[1..], id);
      assert Mentions(h, id) <==> h[0].blogId == id || Mentions(h[1..], id) by {
        if Mentions(h[1..], id) {
          var i :| 0 <= i < |h[1..]| && h[1..][i].blogId == id;
          assert h[i + 1].blogId == id;
        }
        if Mentions(h, id) && h[0].blogId != id {
          var i :| 0 <= i < |h| && h[i].blogId == id;
          assert h[1..][i - 1].blogId == id;
        }
      }
    }
  }
}
