/**
 The session-state store of the dashboard as an object whose fields the
 operations update in place. Each method leaves the store in the state the
 matching function of BlogState describes.
 */
module Store {
  import opened Records
  import opened Lifecycle
  import opened BlogState

  /** One bar chart of the analytics tab. */
  datatype Stats = Stats(views: nat, likes: nat, shares: nat)

  class BlogStore {
    var blogData: map<string, Post>
    var editHistory: seq<HistoryEntry>
    var blogViews: map<string, nat>
    var blogLikes: map<string, nat>
    var blogShares: map<string, nat>

    /** The five fields as one value. */
    ghost function Snapshot(): State
      reads this
    {
      State(blogData, editHistory, blogViews, blogLikes, blogShares)
    }

    ghost predicate Valid()
      reads this
    {
      BlogState.Valid(Snapshot())
    }

    /** A new session: every map and the log start empty. */
    constructor ()
      ensures Snapshot() == Init()
      ensures Valid()
    {
      blogData, editHistory := map[], [];
      blogViews, blogLikes, blogShares := map[], map[], map[];
    }

    method TrackEditHistory(blogId: string, action: Action, timestamp: string)
      modifies this
      ensures Snapshot() == TrackEdit(old(Snapshot()), blogId, action, timestamp)
    {
      editHistory := editHistory + [HistoryEntry(blogId, action, timestamp)];
    }

    method IncrementBlogStat(blogId: string, statType: string)
      modifies this
      ensures Snapshot() == IncrementStat(old(Snapshot()), blogId, statType)
    {
      if statType == "view" {
        if blogId !in blogViews {
          blogViews := blogViews[blogId := 0];
        }
        blogViews := blogViews[blogId := blogViews[blogId] + 1];
      } else if statType == "like" {
        if blogId !in blogLikes {
          blogLikes := blogLikes[blogId := 0];
        }
        blogLikes := blogLikes[blogId := blogLikes[blogId] + 1];
      } else if statType == "share" {
        if blogId !in blogShares {
          blogShares := blogShares[blogId := 0];
        }
        blogShares := blogShares[blogId := blogShares[blogId] + 1];
      }
    }

    /** The publish button: `blogId` stands for a fresh `uuid4`. */
    method Publish(blogId: string, language: string, translatedText: string, timestamp: string)
      requires Valid() && IsFresh(Snapshot(), blogId)
      modifies this
      ensures Snapshot() == BlogState.Publish(old(Snapshot()), blogId, language, translatedText, timestamp)
      ensures Valid()
    {
      PublishPreservesValid(Snapshot(), blogId, language, translatedText, timestamp);
      blogData := blogData[blogId := Post(translatedText, [], [], TitleFor(language))];
      TrackEditHistory(blogId, Published, timestamp);
      IncrementBlogStat(blogId, "view");
    }

    /** The like button drawn under each listed blog. */
    method Like(blogId: string)
      requires Valid() && blogId in blogData
      modifies this
      ensures Snapshot() == IncrementStat(old(Snapshot()), blogId, "like")
      ensures Valid()
    {
      IncrementPreservesValid(Snapshot(), blogId, "like");
      IncrementBlogStat(blogId, "like");
    }

    /** The update button; `blogId` comes from the select box over the current ids. */
    method Edit(blogId: string, editedContent: string, timestamp: string)
      requires Valid() && blogId in blogData
      modifies this
      ensures Snapshot() == BlogState.Edit(old(Snapshot()), blogId, editedContent, timestamp)
      ensures Valid()
    {
      EditPreservesValid(Snapshot(), blogId, editedContent, timestamp);
      blogData := blogData[blogId := blogData[blogId].(content := editedContent)];
      TrackEditHistory(blogId, Edited, timestamp);
    }

    /** The delete button; `blogId` comes from the select box over the current ids. */
    method Delete(blogId: string, timestamp: string)
      requires Valid() && blogId in blogData
      modifies this
      ensures Snapshot() == BlogState.Delete(old(Snapshot()), blogId, timestamp)
      ensures Valid()
    {
      DeletePreservesValid(Snapshot(), blogId, timestamp);
      blogData := blogData - {blogId};
      TrackEditHistory(blogId, Deleted, timestamp);
    }

    /** The analytics tab: one chart per live blog, absent counters read as 0; every live blog shows a view. */
    method Analytics() returns (readout: map<string, Stats>)
      ensures readout.Keys == blogData.Keys
      ensures forall id :: id in readout ==>
        readout[id] == Stats(Count(blogViews, id), Count(blogLikes, id), Count(blogShares, id))
      ensures Valid() ==> forall id :: id in readout ==> readout[id].views >= 1
    {
      readout := map[];
      var pending := blogData.Keys;
      while pending != {}
        invariant pending <= blogData.Keys
        invariant readout.Keys == blogData.Keys - pending
        invariant forall id :: id in readout ==>
          readout[id] == Stats(Count(blogViews, id), Count(blogLikes, id), Count(blogShares, id))
        decreases pending
      {
        var id :| id in pending;
        var views := if id in blogViews then blogViews[id] else 0;
        var likes := if id in blogLikes then blogLikes[id] else 0;
        var shares := if id in blogShares then blogShares[id] else 0;
        readout := readout[id := Stats(views, likes, shares)];
        pending := pending - {id};
      }
    }
  }

  /** A session as a user drives it: publish, like twice, read the charts, delete. */
  method ExampleSession(timestamp: string) {
    var store := new BlogStore();
    InitValid();
    store.Publish("blog-1", "Hindi", "namaste", timestamp);
    store.Like("blog-1");
    store.Like("blog-1");
    var readout := store.Analytics();
    assert readout["blog-1"] == Stats(1, 2, 0);
    store.Delete("blog-1", timestamp);
    readout := store.Analytics();
    assert "blog-1" !in readout;
    assert store.blogLikes["blog-1"] == 2;
  }
}
