# Regional-language blog dashboard: the session-state store

The dashboard (a Streamlit page, `app.py`) translates text into ten Indian
languages, lets the user publish one translation as a blog, edit or delete
published blogs, like them, and see per-blog bar charts of views, likes and
shares. All of this lives in the page's session state:

- `blog_data`: blog id → record with `content`, `categories`, `tags`, `title`;
- `edit_history`: an append-only log of `{blog_id, action, timestamp}`;
- `blog_views`, `blog_likes`, `blog_shares`: per-id counters.

This project models that store and the translation loop that feeds it.

- `Records` holds the record and log-entry values. The three action labels
  the page ever passes ("Published", "Edited", "Deleted") are an `Action`
  datatype.
- `Lifecycle` reads the life of one id off the log: published once, edited
  any number of times, deleted at most once, and nothing after that.
- `BlogState` holds the session state as a value. Its functions say what
  `increment_blog_stat`, `track_edit_history` and the publish, edit and
  delete buttons do to it. `Valid` is the invariant those buttons keep.
- `Operations` covers runs of the user's actions. It proves what holds over
  any such run: counters never go down, the log only grows, and a deleted id
  never comes back.
- `Store.BlogStore` is the store as an object. Its methods update the five
  fields in place, as the page does. Each method is proved to leave exactly
  the state the matching `BlogState` function gives.
- `Translation` models `translate_text` as a loop over the language list.
  The translation provider is a function parameter.

Two facts that fall out of the model:

- No action of the page ever increments `blog_shares`. There is no share button.
- Views are counted only at publish time, so every blog reads exactly one view.

The lemma `Operations.RunKeepsViewedOnceNeverShared` states both.

Modelling choices:

- `uuid.uuid4()` becomes a caller-supplied id that no log entry has ever
  mentioned (`BlogState.IsFresh`).
- `datetime.now()` becomes a `timestamp` parameter.
- Edit and delete take their id from a select box over the current keys of
  `blog_data` (app.py:196, 202), so their methods require the id to be live.
  The page has no "not found" path. An absent id would raise `KeyError`
  before anything changes.

## Model

| member | source | states |
|---|---|---|
| Lifecycle.StatusAfterAppend | app.py:75-77 | appending one log entry changes only the status of the id it names, by one lifecycle step |
| Lifecycle.LogAppend | app.py:75-77 | the same for every id at once, over the whole log |
| Lifecycle.UnseenIffUnmentioned | app.py:162 | an id is still unseen exactly when no log entry mentions it |
| BlogState.Bump | app.py:82-84 | create the counter at 0 if absent, then add 1: the key set gains the id, its value is old-or-0 plus 1, other ids unchanged, nothing decreases |
| BlogState.IncrementStat | app.py:80-92 | "view", "like", "share" each count once on their own map and leave the other two maps alone; any other kind changes no state; counters never decrease |
| BlogState.TrackEdit | app.py:75-77 | the log grows by exactly one entry at the end carrying the given id, action and timestamp; earlier entries and all other fields unchanged |
| BlogState.Publish | app.py:162-171 | adds exactly the new key with content = translated text, no categories, no tags, title "Blog in " + language; other records kept; a "Published" entry appended; the view counter of the id counted once; likes and shares unchanged |
| BlogState.Edit | app.py:207-211 | key set unchanged; only the edited record's content replaced, its title, categories and tags kept; other records kept; an "Edited" entry appended; counters unchanged |
| BlogState.Delete | app.py:216-218 | exactly that key removed, other records kept; a "Deleted" entry appended after the earlier entries; view, like and share counters unchanged |
| BlogState.InitValid | app.py:34-43 | the empty start state satisfies the invariant and every id is fresh in it |
| BlogState.FreshIsUnused | app.py:162 | in a valid state a fresh id is one the log never mentions, and it has no record and no counter |
| BlogState.PublishPreservesValid | app.py:162-171 | publishing a fresh id keeps the invariant, makes the id live and leaves its view counter at exactly 1 |
| BlogState.EditPreservesValid | app.py:207-211 | editing a live blog keeps the invariant and the blog live |
| BlogState.DeletePreservesValid | app.py:216-218 | deleting a live blog keeps the invariant and marks the id deleted |
| BlogState.IncrementPreservesValid | app.py:80-92 | counting for an id the log knows keeps the invariant (counters stay at least 1) |
| Operations.Apply | app.py:161-218 | every enabled user action leaves the counters grown and the old log a prefix of the new one |
| Operations.Run | app.py:161-218 | over any run of actions, no counter decreases or disappears and the log is only appended to |
| Operations.ApplyPreservesValid | app.py:161-218 | every enabled action keeps the invariant |
| Operations.RunPreservesValid | app.py:161-218 | every run of enabled actions from a valid state ends valid |
| Operations.RemovedIsFinal | app.py:196-218 | once deleted, an id stays deleted and is never among the offered blogs again |
| Operations.DeletedStaysGone | app.py:196-218 | after delete, no later run of actions makes the id live again, so it cannot be edited or viewed |
| Operations.PublishSpendsId | app.py:162-171 | after publishing an id, a publish under the same id is not enabled |
| Operations.RunKeepsViewedOnceNeverShared | app.py:80-92 | under the page's own actions, shares stay empty and every view counter is exactly 1 |
| Operations.PublishThenLikeTwice | app.py:162-189 | publishing and liking twice reads views 1, likes 2, shares 0 |
| Store.BlogStore.constructor | app.py:34-43 | a new session has empty maps and log and satisfies the invariant |
| Store.BlogStore.TrackEditHistory | app.py:75-77 | the new state is the old one with the entry appended |
| Store.BlogStore.IncrementBlogStat | app.py:80-92 | the in-place create-at-0-then-add-1 yields exactly the state IncrementStat describes |
| Store.BlogStore.Publish | app.py:162-171 | the new state is Publish of the old one; the invariant is kept |
| Store.BlogStore.Like | app.py:187-189 | the new state counts one like for the blog; the invariant is kept |
| Store.BlogStore.Edit | app.py:207-211 | the new state is Edit of the old one; the invariant is kept |
| Store.BlogStore.Delete | app.py:216-218 | the new state is Delete of the old one; the invariant is kept |
| Store.BlogStore.Analytics | app.py:231-234 | one entry for exactly the live blogs, each counter read with 0 for an absent entry; in a valid state every live blog shows at least one view |
| Translation.LanguagesAreDistinct | app.py:13-24 | the ten language labels are distinct |
| Translation.TranslateText | app.py:54-62 | exactly one entry per requested language label, holding the translated text or "Error: " and the exception message |

## Left out

- `calculate_accuracy` (app.py:65-72): it uses floating point and the external `Levenshtein.distance`. It also divides by zero when both strings are empty.
- `save_blog_to_file` (app.py:95-99, called at 172) and creating the output directory (app.py:30-31): file I/O and JSON serialisation.
- The network call inside `translate_text` (app.py:58): the provider is a pure function parameter. So the model cannot express that two identical requests may get different answers.
- `uuid.uuid4()` (app.py:162) and `datetime.now()` (app.py:76): replaced by a fresh-id precondition and a timestamp parameter.
- The insertion order of `blog_data`: Dafny maps are unordered. The order decides the "Recent Blogs" list (last five ids, app.py:199) and the order of the charts. Neither is modelled.
- The "View Blog" action (app.py:222-223) and the blog listing (app.py:181-184): they only display content and change no state.
- Layout, tabs, buttons, the sidebar and the navigation flags `show_analytics` and `home_page` (app.py:44-47, 102-130): UI glue.
- Chart drawing with matplotlib (app.py:237-243).
- `blog_categories` and `blog_tags` (app.py:48-51): initialised but never used.
