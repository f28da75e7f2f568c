# csv2image2video2youtube — decision logic of `video_creator.py`

The script reads a CSV of video jobs, builds a slideshow video per row and
uploads it to YouTube with a resumable upload, waiting between videos to keep
under a videos-per-hour throttle. This project models the logic around that
I/O and proves what it promises:

- `upload.dfy` (module `Upload`): the retry loop of `resumable_upload`.
  `request.next_chunk()` is a scripted test double (`ChunkOutcome`), the
  values of `random.random()` are a sequence `draws` in [0, 1), and each
  `time.sleep` is recorded as a duration. The loop is the method
  `ResumableUpload`. It is proved equal to the recursive specification
  `Resume`, and the lemmas about `Resume` cover these cases:
  - a completed response ends the loop;
  - a non-retriable HttpError is re-raised without a retry;
  - eleven counted failures end the loop after ten sleeps;
  - sleep `k` lies in [0, 2^k);
  - the `error` variable is never reset once set (the sticky error).
- `throttle.dfy` (module `Throttle`): the `--throttle` argument check
  `throttle_range`, the throttle window and the wait after each video (Python 2
  integer division).
- `columns.dfy` (module `Columns`): how a row's image URLs are chosen. The
  columns are visited in Python's `sorted` order, which is case-sensitive
  lexicographic order on `str`. A column is kept when its lower-cased name
  starts with `image` and its value passes the URL check. The URL check is a
  parameter `isUrl`.
- `tags.dfy` (module `Tags`): the `Tags` field split on `,` in
  `initialize_upload`.
- `credentials.dfy` (module `Credentials`): the legacy-credential migration in
  `load_credentials`. The file is a class `CredentialFile`, whose `content` is
  rewritten only when it holds an `access_token`.
- `wrappers.dfy` (module `Wrappers`): `Option` and `Result`.

Three behaviours of the code that are easy to misread:

- Python's `sorted` is case-sensitive, so the column `Image2` comes before
  `image1` and its URL is first in the list (`MixedCaseColumnsOrder`).
- The script sleeps after every video, the last one included.
- After a retriable error, every later answer that only reports progress is
  also counted as a retry and followed by a sleep
  (`ProgressAfterErrorStillCounts`).

## Model

| member | source | states |
|---|---|---|
| `Upload.Backoff` | video_creator.py:188-189 | the sleep `random() * 2**retry` lies in [0, 2^retry) |
| `Upload.Jitter` | video_creator.py:189 | a draw in [0, 1) scaled by `max_sleep` lies in [0, max_sleep) |
| `Upload.Resume` | video_creator.py:159-191 | from any loop state, at most MaxRetries - retry further sleeps happen; sleep k of the rest is `Backoff(draws[retry + k], retry + k + 1)`; giving up happens only after all remaining sleeps |
| `Upload.AfterAttempt` | video_creator.py:182-191 | the counting/give-up/sleep tail of an iteration keeps the same bounds on sleeps as `Resume`, and a counted iteration at `retry == MaxRetries` gives up at once without sleeping |
| `Upload.CountedAnswerAtCapGivesUp` | video_creator.py:182-186 | at the cap, a retriable failure, or a progress answer once `error` is set, ends the loop with the give-up exit and no sleep |
| `Upload.ResumableUpload` | video_creator.py:159-191 | the loop returns the outcome and sleeps of its specification `Resume` from `error = None, retry = 0`; at most 10 sleeps, the k-th in [0, 2^(k+1)) |
| `Upload.CompletionEndsLoop` | video_creator.py:163-172 | before any retriable error, progress answers followed by a completed response end the loop with that response's outcome and no sleep |
| `Upload.FailuresThenCompletion` | video_creator.py:166-191 | up to 10 retriable failures followed by a completed response end with that response's outcome (`Uploaded(id)` when it has an `id`, the unexpected-response exit otherwise) after exactly one sleep per failure |
| `Upload.FatalErrorNotRetried` | video_creator.py:173-178 | a non-retriable HTTP status is re-raised at once: the outcome is `HttpErrorRaised(status)` and only the earlier retriable failures slept |
| `Upload.RetryBudgetExhausted` | video_creator.py:182-186 | MaxRetries - retry + 1 retriable failures in a row end with the give-up exit after MaxRetries - retry sleeps (11 failures, 10 sleeps from a fresh loop) |
| `Upload.ProgressAfterErrorStillCounts` | video_creator.py:182-191 | once `error` is set, each progress answer still increments `retry` and adds one sleep |
| `Upload.StickyErrorExample` | video_creator.py:161-191 | a transport failure, a progress answer and a success give `Uploaded` after two sleeps |
| `Upload.ProgressBeforeErrorIsFree` | video_creator.py:163-182 | before the first retriable error, progress answers change neither the counter nor the sleeps |
| `Upload.UploadedIdComesFromResponse` | video_creator.py:166-170 | a returned id is the `id` of some completed response of the script |
| `Upload.WorstCaseTotalSleep` | video_creator.py:184-191 | the sleeps of one upload add up to less than 2046 seconds |
| `Throttle.ThrottleRange` | video_creator.py:203-208 | as written, the check returns every integer unchanged and never rejects |
| `Throttle.OutOfRangeThrottlesAccepted` | video_creator.py:205-207 | 0, 31 and -5 pass the check although the message calls them invalid |
| `Throttle.ThrottleRangeIntended` | video_creator.py:203-208 | the check the message describes accepts exactly 1..30 and returns the value unchanged |
| `Throttle.ThrottleWindow` | video_creator.py:219-223 | the window is positive; below 30 it is the hour less 120 seconds per video, otherwise 1200 seconds |
| `Throttle.ThrottleWindowExamples` | video_creator.py:220-223 | throttle 1, 20 and 30 give windows of 3480, 1200 and 1200 seconds |
| `Throttle.WindowShrinksWithThrottle` | video_creator.py:220-221 | below 30, a larger throttle never gives a longer window |
| `Throttle.AcceptedThrottleWindow` | video_creator.py:220-221 | for a throttle from 1 to 29, the window lies between 120 and 3480 seconds |
| `Throttle.PerVideoDelay` | video_creator.py:298-299 | the per-video wait is the floor of window / count: `d * n <= window < (d + 1) * n`, and not negative for a non-negative window |
| `Throttle.BatchWaitFitsWindow` | video_creator.py:298-299 | one wait after each of n videos totals at most the window and falls short of it by less than n seconds |
| `Columns.SelectImages` | video_creator.py:234-237 | every image is the value of an image column whose value passes the URL check, and every such value is in the list; the kept columns are exactly those columns, in strictly ascending key order, and the images are their values in that order |
| `Columns.SortedEnumerationUnique` | video_creator.py:235 | two strictly ascending lists of the same keys are equal, so the image list depends on the row alone |
| `Columns.MixedCaseColumnsOrder` | video_creator.py:234-237 | for columns Title, Image2, image1, ImageXYZ (not a URL) and Tags, the kept columns are Image2 then image1 |
| `Columns.ImageKeyCaseInsensitive` | video_creator.py:236 | a key is an image key exactly when its first five characters lower-case to `image` |
| `Tags.Split` | video_creator.py:115 | splitting on `,` gives at least one piece, and no piece contains a `,` |
| `Tags.SplitCount` | video_creator.py:115 | there is one more piece than there are `,` in the field |
| `Tags.JoinSplit` | video_creator.py:115 | joining the pieces with `,` gives back the field |
| `Tags.SplitJoin` | video_creator.py:115 | splitting a join of comma-free pieces gives back the pieces |
| `Tags.Tags` | video_creator.py:113-115 | a missing or empty field gives no tags; otherwise the tags are the comma-free pieces, one more than the commas, that join back to the field |
| `Tags.TagsExample` | video_creator.py:113-115 | `a,,b` gives `a`, an empty tag and `b`; an empty field gives none |
| `Credentials.Migrated` | video_creator.py:98-101 | the rewritten object has no `access_token` key, has `scopes` equal to SCOPES, and keeps every other key and value |
| `Credentials.MigrationIsFinal` | video_creator.py:98-104 | a migrated object is not legacy, and migrating it again changes nothing |
| `Credentials.CredentialFile.Load` | video_creator.py:93-104 | the file is rewritten exactly when it holds `access_token`; the returned data is the migrated object in that case and the old content otherwise; afterwards the file holds the returned data |
| `Credentials.LoadTwice` | video_creator.py:98-104 | after one load, a second load never rewrites the file; the file then holds the migrated object if it was legacy and its old content otherwise, and is not legacy |

## Left out

- The OAuth flow, reading and writing the credential file, and the credentials refresh are foreign calls and file I/O. Only the dictionary rewrite and whether the file is written are modelled.
- The API client is a foreign library: `videos().insert`, `MediaFileUpload`, `upload_thumbnail` and the body built in `initialize_upload`. The model keeps only the tag split from that body. `next_chunk` is a finite script of answers.
- Upload.ResumableUpload: the source loops for as long as `next_chunk` keeps answering. The model stops with `ScriptExhausted` when the scripted answers run out.
- Columns.SelectImages: a row is a map from strings to strings. A row with more fields than the header puts the extra fields under the key `None`. In Python 2, `sorted` puts that key first, and `None.lower()` on line 236 then stops the script. A row with fewer fields gives the missing columns the value `None`, which line 236 passes to the URL check. Neither the `None` key, the `None` values nor that crash is modelled.
- The API response is modelled as a map from keys to strings. In the real API response most fields other than `id` are JSON objects. Only `id` is read, so nothing else depends on this.
- Upload.ResumableUpload: the log messages and the text of the `error` string are not modelled. `error` records only which retriable failure happened.
- Image download, resizing, the `end.png` copies and the `ffmpeg` call are network, file-system and external-process work.
- CSV parsing and the `argparse` wiring are library wrappers. The argument is modelled as the integer that `int(value)` yields, not as a string.
- `time.sleep` and `random.random()` are not called. A sleep is recorded as its duration. The random factors are the input `draws`, each in [0, 1).
- `validators.url` is the uninterpreted parameter `isUrl`.
- `str.lower()` is modelled on ASCII letters only, as Python 2 byte strings behave in the default locale.
- The per-video loop of the script is not modelled: its temporary-directory handling and thumbnail upload are I/O. Its use of a stale `video_id` after a caught `HttpError` is also left out.

## Findings

| source | as written | input that shows it | evidently intended | confidence | as-written member | corrected member |
|---|---|---|---|---|---|---|
| video_creator.py:205 | `if 30 < ivalue < 1:` is a chained comparison that no integer satisfies, so the check never rejects | `--throttle 0` or `--throttle 31` is accepted | reject values outside 1..30, as the error message says (`ivalue > 30 or ivalue < 1`) | high; not executed | `Throttle.ThrottleRange` (with `Throttle.OutOfRangeThrottlesAccepted`) | `Throttle.ThrottleRangeIntended` |
