/**
 The dashboard's session state as a value, and the effect of each operation
 on it: the counter helper `increment_blog_stat`, the log helper
 `track_edit_history`, and the publish, edit and delete actions of the UI.
 These functions are the specification the methods of Store.BlogStore meet.
 */
module BlogState {
  import opened Records
  import opened Lifecycle

  /** `blog_data`, `edit_history`, `blog_views`, `blog_likes` and `blog_shares`. */
  datatype State = State(
    blogData: map<string, Post>,
    editHistory: seq<HistoryEntry>,
    blogViews: map<string, nat>,
    blogLikes: map<string, nat>,
    blogShares: map<string, nat>)

  /** The state a new session starts in: every map and the log empty. */
  function Init(): State {
    State(map[], [], map[], map[], map[])
  }

  /** A counter read the way the analytics tab reads it, `get(id, 0)`: an absent entry is 0. */
  function Count(m: map<string, nat>, id: string): nat {
    if id in m then m[id] else 0
  }

  /** `m'` is `m` with the counter of `id` created at 0 if absent and then raised by one; no other entry differs. */
  ghost predicate CountedOnce(m: map<string, nat>, m': map<string, nat>, id: string) {
    && m'.Keys == m.Keys + {id}
    && m'[id] == Count(m, id) + 1
    && forall k :: k in m && k != id ==> m'[k] == m[k]
  }

  /** No counter of `m` is lost or lowered in `m'`. */
  ghost predicate Grows(m: map<string, nat>, m': map<string, nat>) {
    forall k :: k in m ==> k in m' && m[k] <= m'[k]
  }

  /** None of the three counter maps loses or lowers an entry from `s` to `r`. */
  ghost predicate CountersGrow(s: State, r: State) {
    Grows(s.blogViews, r.blogViews) && Grows(s.blogLikes, r.blogLikes) && Grows(s.blogShares, r.blogShares)
  }

  /** Create-at-0-then-add-1 on one counter map. */
  function Bump(m: map<string, nat>, id: string): (r: map<string, nat>)
    ensures CountedOnce(m, r, id)
    ensures Grows(m, r)
  {
    m[id := Count(m, id) + 1]
  }

  /** `increment_blog_stat`: "view", "like" and "share" each count once on their own map; any other kind changes nothing. */
  function IncrementStat(s: State, id: string, statType: string): (r: State)
    ensures r.blogData == s.blogData && r.editHistory == s.editHistory
    ensures statType == "view" ==>
      CountedOnce(s.blogViews, r.blogViews, id) && r.blogLikes == s.blogLikes && r.blogShares == s.blogShares
    ensures statType == "like" ==>
      CountedOnce(s.blogLikes, r.blogLikes, id) && r.blogViews == s.blogViews && r.blogShares == s.blogShares
    ensures statType == "share" ==>
      CountedOnce(s.blogShares, r.blogShares, id) && r.blogViews == s.blogViews && r.blogLikes == s.blogLikes
    ensures statType != "view" && statType != "like" && statType != "share" ==> r == s
    ensures CountersGrow(s, r)
  {
    if statType == "view" then s.(blogViews := Bump(s.blogViews, id))
    else if statType == "like" then s.(blogLikes := Bump(s.blogLikes, id))
    else if statType == "share" then s.(blogShares := Bump(s.blogShares, id))
    else s
  }

  /** `track_edit_history`: one entry at the end of the log; earlier entries and everything else kept. */
  function TrackEdit(s: State, id: string, action: Action, timestamp: string): (r: State)
    ensures |r.editHistory| == |s.editHistory| + 1
    ensures r.editHistory[..|s.editHistory|] == s.editHistory
    ensures r.editHistory[|s.editHistory|] == HistoryEntry(id, action, timestamp)
    ensures r.(editHistory := s.editHistory) == s
  {
    s.(editHistory := s.editHistory + [HistoryEntry(id, action, timestamp)])
  }

  /** Publishing `text` translated into `language` under `id`: store the record, log "Published", count one view. */
  function Publish(s: State, id: string, language: string, text: string, timestamp: string): (r: State)
    ensures r.blogData.Keys == s.blogData.Keys + {id}
    ensures r.blogData[id] == Post(text, [], [], "Blog in " + language)
    ensures forall k :: k in s.blogData && k != id ==> r.blogData[k] == s.blogData[k]
    ensures r.editHistory == s.editHistory + [HistoryEntry(id, Published, timestamp)]
    ensures CountedOnce(s.blogViews, r.blogViews, id)
    ensures r.blogLikes == s.blogLikes && r.blogShares == s.blogShares
    ensures CountersGrow(s, r)
  {
    var stored := s.(blogData := s.blogData[id := Post(text, [], [], TitleFor(language))]);
    IncrementStat(TrackEdit(stored, id, Published, timestamp), id, "view")
  }

  /** Saving new content for the existing blog `id`, then logging "Edited". */
  function Edit(s: State, id: string, newContent: string, timestamp: string): (r: State)
    requires id in s.blogData
    ensures r.blogData.Keys == s.blogData.Keys
    ensures r.blogData[id].content == newContent
    ensures r.blogData[id].title == s.blogData[id].title
    ensures r.blogData[id].categories == s.blogData[id].categories
    ensures r.blogData[id].tags == s.blogData[id].tags
    ensures forall k :: k in s.blogData && k != id ==> r.blogData[k] == s.blogData[k]
    ensures r.editHistory == s.editHistory + [HistoryEntry(id, Edited, timestamp)]
    ensures r.blogViews == s.blogViews && r.blogLikes == s.blogLikes && r.blogShares == s.blogShares
  {
    var stored := s.(blogData := s.blogData[id := s.blogData[id].(content := newContent)]);
    TrackEdit(stored, id, Edited, timestamp)
  }

  /** Deleting the existing blog `id`, then logging "Deleted"; its counters and earlier log entries stay. */
  function Delete(s: State, id: string, timestamp: string): (r: State)
    requires id in s.blogData
    ensures r.blogData.Keys == s.blogData.Keys - {id}
    ensures forall k :: k in r.blogData ==> r.blogData[k] == s.blogData[k]
    ensures r.editHistory == s.editHistory + [HistoryEntry(id, Deleted, timestamp)]
    ensures r.blogViews == s.blogViews && r.blogLikes == s.blogLikes && r.blogShares == s.blogShares
  {
    TrackEdit(s.(blogData := s.blogData - {id}), id, Deleted, timestamp)
  }

  /** An id `uuid4` could hand out: no log entry has ever named it. */
  predicate IsFresh(s: State, id: string) {
    StatusOf(s.editHistory, id) == Unseen
  }

  /** Every counter that exists is at least 1 and belongs to an id the log has seen. */
  ghost predicate CounterValid(m: map<string, nat>, h: seq<HistoryEntry>) {
    forall id :: id in m ==> m[id] >= 1 && StatusOf(h, id) != Unseen
  }

  /**
   The invariant the dashboard's operations keep: the log of every id follows
   Published, Edited*, Deleted?; the live blogs are exactly the ids whose log
   ends before a deletion; every live blog has been viewed; counters are positive.
   */
  ghost predicate Valid(s: State) {
    && (forall id :: StatusOf(s.editHistory, id) != Invalid)
    && (forall id :: id in s.blogData <==> StatusOf(s.editHistory, id) == Live)
    && (forall id :: id in s.blogData ==> id in s.blogViews)
    && CounterValid(s.blogViews, s.editHistory)
    && CounterValid(s.blogLikes, s.editHistory)
    && CounterValid(s.blogShares, s.editHistory)
  }

  lemma InitValid()
    ensures Valid(Init())
    ensures forall id :: IsFresh(Init(), id)
  {
  }

  /** A fresh id is one that no log entry mentions, and in a valid state it owns no record and no counter. */
  lemma FreshIsUnused(s: State, id: string)
    requires Valid(s)
    ensures IsFresh(s, id) <==> !Mentions(s.editHistory, id)
    ensures IsFresh(s, id) ==>
      id !in s.blogData && id !in s.blogViews && id !in s.blogLikes && id !in s.blogShares
  {
    UnseenIffUnmentioned(Unseen, s.editHistory, id);
  }

  lemma PublishPreservesValid(s: State, id: string, language: string, text: string, timestamp: string)
    requires Valid(s) && IsFresh(s, id)
    ensures Valid(Publish(s, id, language, text, timestamp))
    ensures StatusOf(Publish(s, id, language, text, timestamp).editHistory, id) == Live
    ensures Publish(s, id, language, text, timestamp).blogViews[id] == 1
  {
    LogAppend(s.editHistory, HistoryEntry(id, Published, timestamp));
  }

  lemma EditPreservesValid(s: State, id: string, newContent: string, timestamp: string)
    requires Valid(s) && id in s.blogData
    ensures Valid(Edit(s, id, newContent, timestamp))
    ensures StatusOf(Edit(s, id, newContent, timestamp).editHistory, id) == Live
  {
    LogAppend(s.editHistory, HistoryEntry(id, Edited, timestamp));
  }

  lemma DeletePreservesValid(s: State, id: string, timestamp: string)
    requires Valid(s) && id in s.blogData
    ensures Valid(Delete(s, id, timestamp))
    ensures StatusOf(Delete(s, id, timestamp).editHistory, id) == Removed
  {
    LogAppend(s.editHistory, HistoryEntry(id, Deleted, timestamp));
  }

  /** Counting for an id the log already knows keeps the invariant, whatever the kind. */
  lemma IncrementPreservesValid(s: State, id: string, statType: string)
    requires Valid(s) && !IsFresh(s, id)
    ensures Valid(IncrementStat(s, id, statType))
  {
  }
}
