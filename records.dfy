/**
 The values the blog dashboard keeps in its session state (app.py): the
 record stored for each published blog and the entries of the edit log.
 */
module Records {

  /** One blog as stored under its id in `blog_data`. */
  datatype Post = Post(content: string, categories: seq<string>, tags: seq<string>, title: string)

  /** The three action labels the dashboard hands to `track_edit_history`. */
  datatype Action = Published | Edited | Deleted {
    /** The literal string the dashboard stores for this action. */
    function Label(): string {
      match this
      case Published => "Published"
      case Edited => "Edited"
      case Deleted => "Deleted"
    }
  }

  /** One entry of `edit_history`; `timestamp` is the formatted clock reading taken by the caller. */
  datatype HistoryEntry = HistoryEntry(blogId: string, action: Action, timestamp: string)

  /** The title a blog published from a translation into `language` receives. */
  function TitleFor(language: string): string {
    "Blog in " + language
  }
}
