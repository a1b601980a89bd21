# English → Japanese vocabulary quiz: the quiz engine in Dafny

This project models the quiz engine of `VocabQuizApp` (`application_finale.py`)
without its tkinter window, its background image and its pandas file handling.
Three parts are modelled:

- **Word bank.** A category's table is a sequence of `Entry(english, japanese,
  mistakes)` rows (`word_bank.dfy`). Its CSV file is a `Sheet`: the `english`
  and `japanese` columns, plus the `mistakes` column when the file has one.
  `Load` reads a missing `mistakes` column as 0 on every row. `Store` always
  writes the column. A miss updates by value: `RecordMistake` adds one to
  every row whose `english` equals the key, duplicates included. A reset
  (`ResetMistakes`) sets every count to 0.
- **Answer grading.** Grading strips the answer and the expected word and then
  compares them exactly (`text.dfy`). `Trim` is `str.strip()` over Python's
  whitespace characters. `Matches` is the grade.
- **Score history.** The history file is a sequence of `HistoryRow(datetime,
  category, score, total)` (`history.dfy`). Rows are only appended or cleared
  all at once. The history window shows `Recent`, the last five rows, oldest
  first.

The class `Quiz.VocabQuizApp` (`quiz.dfy`) has the source's fields:
`data`, `questions`, `current_q`, `score`, `quiz_length`, `wrong_answers`
and `current_word`. Two more fields stand for the disk: `files` (the category
CSV files, by name) and `history` (the score history file). A third, `category`,
holds the category selected when the quiz was started. Its methods are the
handlers, and each one states the whole new state.

- **`StartQuiz`** clears the counters and the miss log. It then loads the
  category file and, when the file exists, copies it into `questions` in order
  and asks the first question.
- **`AskQuestion`** sets `current_word` to `questions[pick]` while
  `current_q < quiz_length`. Otherwise it ends the quiz, which appends exactly
  one history row.
- **`CheckAnswer`** grades the answer. A right answer adds one to `score`. A
  wrong one appends one `Miss` to `wrong_answers` and records the mistake in
  `data` and in the category file. In both cases `current_q` goes up by one,
  so `0 <= score <= current_q` is kept. The exception is a wrong answer while
  no table is loaded (the last start found no file): the handler raises after
  logging the miss, and neither the table, the file nor `current_q` changes.

The count shown in a `Miss` is the count in the question's snapshot plus one.
The snapshot is `questions`, which is copied at start and never updated. So a
word missed twice in one quiz shows count 1 twice, while the table and the file
count 2 (`Quiz.RepeatedMissScenario`).

Reset works on the file only. It does not touch the loaded `data`, so a later
miss in the same quiz writes the old counts back.

Four behaviours of the code that the model keeps as written:

- A wrong answer logs the snapshot count plus one, not the count after the
  increment. The two differ once a word is missed twice in one quiz.
- Nothing makes a finished quiz terminal. The Submit button is never disabled
  again, so a further answer is graded and advances `current_q` past
  `quiz_length`. The next `AskQuestion` then appends a second history row.
  Because of this, the model does not claim `current_q <= quiz_length`.
- A question count of 0 or less is not rejected. The quiz ends at once and saves
  a row whose total is that count.
- A missing category file is not a failure without effect. The counters are
  already cleared and `data` becomes None, while `questions` and
  `current_word` keep their old values. The category selector is read-only,
  so an unknown category cannot be chosen; `StartQuiz` requires a known one.

Inputs from outside the engine are parameters:

- `random.choice` is the index `pick`, supplied by the caller.
- `datetime.now()` is the string `now`.
- The selected category and the question count are arguments of `StartQuiz`.

## Model

| member | source | states |
|---|---|---|
| `Quiz.VocabQuizApp.constructor` | application_finale.py:28-41 | the application opens with no table loaded, no question, both counters 0, length 5, an empty miss log and the first category selected |
| `Quiz.VocabQuizApp.LoadCsv` | application_finale.py:99-106 | a table exactly when the file exists, and then exactly the file's rows as `Load` reads them: words in order, with the `mistakes` cell or 0 when the column is missing |
| `WordBank.Load` | application_finale.py:103-105 | the definition of reading a category file: one row per file row, in order, with its words, and its count taken from the `mistakes` column or 0 when there is none; `LoadWithoutMistakes`, `LoadStore` and `StoreLoad` characterize it |
| `WordBank.LoadWithoutMistakes` | application_finale.py:103-105 | a file without a `mistakes` column loads with its words in order and every count 0 |
| `WordBank.LoadStore` | application_finale.py:103-111 | writing a table to its file and reading it back gives the same table |
| `WordBank.StoreLoad` | application_finale.py:103-111 | reading a file that has a `mistakes` column and writing it back gives the same file |
| `WordBank.Store` | application_finale.py:111 | a written file always has all three columns, with one cell per row |
| `WordBank.RecordMistake` | application_finale.py:108-110 | every row whose `english` equals the key gains one mistake; other rows, the words and the length are unchanged |
| `WordBank.RecordMistakeTotal` | application_finale.py:110 | a miss adds to the total one mistake per row carrying the key, so duplicated words all change |
| `WordBank.RecordMistakeAbsent` | application_finale.py:110 | a miss on a word the table does not contain changes nothing |
| `WordBank.RecordMistakeTwice` | application_finale.py:108-111 | two misses on the same word add two to each of its rows |
| `WordBank.RecordMistakeCommutes` | application_finale.py:108-111 | misses on two words give the same table in either order |
| `Quiz.VocabQuizApp.UpdateMistakeCount` | application_finale.py:108-111 | the loaded table is updated by value and written whole to the quiz category's file; nothing else changes |
| `Quiz.VocabQuizApp.StartQuiz` | application_finale.py:113-125 | counters 0, empty miss log, the new length and category; `questions` is the loaded file in its order and the first question is asked; a missing file leaves `questions`, `current_word` and the history as they were |
| `Quiz.VocabQuizApp.AskQuestion` | application_finale.py:127-135 | while `current_q < quiz_length` the picked question becomes current and the history is unchanged; otherwise exactly one row (time, category, score, length) is appended to the history |
| `Text.Trim` | application_finale.py:138-140 | the definition of `str.strip()`: the result is no longer than the input and neither starts nor ends with whitespace; `TrimIsCore`, `TrimStartAt` and `TrimEndAt` characterize exactly which piece it keeps |
| `Text.Matches` | application_finale.py:142 | the definition of the grade, equality of the stripped answer and the stripped expected word: an answer identical to the expected word is always right; `MatchesIsExact` and `MatchesIgnoresPadding` characterize it |
| `Text.TrimStartShape` | application_finale.py:138-140 | dropping leading whitespace keeps the longest suffix that does not start with a space |
| `Text.TrimEndShape` | application_finale.py:138-140 | dropping trailing whitespace keeps the longest prefix that does not end with a space |
| `Text.TrimStartAt` | application_finale.py:138-140 | leading whitespace is dropped up to the first character that is not a space, and no further |
| `Text.TrimEndAt` | application_finale.py:138-140 | trailing whitespace is dropped back to the last character that is not a space, and no further |
| `Text.TrimIsCore` | application_finale.py:138-140 | the stripped string is the part between surrounding whitespace that neither starts nor ends with a space |
| `Text.TrimIdempotent` | application_finale.py:138-140 | stripping a stripped string changes nothing |
| `Text.TrimStartSpaces` | application_finale.py:138-140 | whitespace put before a string does not change what stripping its start keeps |
| `Text.TrimEndSpaces` | application_finale.py:138-140 | whitespace put after a string does not change what stripping its end keeps |
| `Text.TrimStartAppend` | application_finale.py:138-140 | stripping the start of a concatenation keeps the right part whole unless the left part is all whitespace |
| `Text.TrimTrailing` | application_finale.py:138-140 | whitespace put after a string does not change its strip |
| `Text.TrimPadded` | application_finale.py:138-140 | whitespace added before and after a string does not change its strip |
| `Text.TrimUnpadded` | application_finale.py:138-140 | a string without surrounding whitespace is its own strip |
| `Text.MatchesIgnoresPadding` | application_finale.py:138-142 | the grade does not depend on whitespace around the answer |
| `Text.MatchesIsExact` | application_finale.py:138-142 | on strings without surrounding whitespace the grade is exact equality, so case and inner spacing count |
| `Text.TrailingSpaceForgiven` | application_finale.py:138-142 | "猫 " is graded right against "猫" |
| `Text.CaseCounts` | application_finale.py:138-142 | "Neko" is graded wrong against "neko" |
| `Text.InnerSpaceCounts` | application_finale.py:138-142 | "ne ko" is graded wrong against "neko" |
| `Quiz.MissFor` | application_finale.py:138-147 | a miss records the stripped word, the stripped expected answer, the stripped input or `[empty]` when it is blank, and the snapshot count plus one |
| `Quiz.VocabQuizApp.CheckAnswer` | application_finale.py:137-150 | right exactly when the stripped input equals the stripped expected word; right: score and `current_q` each go up by one and the miss log, table and files are unchanged; wrong: exactly one miss is appended, the table and file record the mistake and `current_q` goes up by one; wrong with no table loaded: the miss is logged and the handler raises before advancing |
| `Quiz.VocabQuizApp.EndQuiz` | application_finale.py:153-155 | ending a quiz appends its result to the history |
| `Quiz.VocabQuizApp.SaveQuizResult` | application_finale.py:157-166 | exactly one row (time, category, score, length) is added at the end; earlier rows are unchanged |
| `History.Tail` | application_finale.py:174-175 | the last min(n, length of h) rows of h, in their order |
| `History.Recent` | application_finale.py:174-175 | the history window shows the last min(5, length of h) rows of h, in their order, so never more than five |
| `History.RecentShort` | application_finale.py:168-175 | a history of at most five rows is shown whole, in order; no history shows nothing |
| `History.RecentAppend` | application_finale.py:164-175 | after an append, the window is the old window, less its oldest row once it held five, followed by the new row |
| `History.RecentLast` | application_finale.py:164-175 | right after an append, the newest row shown is the appended one |
| `Quiz.VocabQuizApp.ShowHistory` | application_finale.py:168-175 | the rows listed are the last min(5, length of the history) rows of the history, oldest first |
| `Quiz.VocabQuizApp.ClearHistory` | application_finale.py:195-198 | the history is empty afterwards, whether or not it was before |
| `WordBank.ResetMistakes` | application_finale.py:206 | every count becomes 0; the words and the length are unchanged |
| `WordBank.ResetThenLoad` | application_finale.py:201-207 | after a reset is written, loading the file gives every word in place with count 0 |
| `WordBank.ResetIdempotent` | application_finale.py:201-207 | resetting twice is the same as resetting once |
| `WordBank.ResetTotal` | application_finale.py:206 | after a reset the table's total count is 0 |
| `Quiz.VocabQuizApp.ResetMistakeHistory` | application_finale.py:201-207 | a missing category file is left alone; otherwise the file is rewritten with every count 0; the loaded table is not touched |
| `Quiz.StartOneWordQuiz` | application_finale.py:113-130 | starting a quiz on a file holding one word loads that word, asks it, and leaves the counters at 0 and the files and history unchanged |
| `Quiz.MissOnce` | application_finale.py:137-150 | a first wrong answer on that word logs one miss with count 1, leaves the score at 0, and makes the count 1 in the table and in the file |
| `Quiz.CorrectAnswerScenario` | application_finale.py:113-166 | a one-question quiz on one word answered right is graded right and saves the row (time, category, 1, 1) |
| `Quiz.WrongAnswerScenario` | application_finale.py:113-166 | a one-question quiz on one word answered wrong saves the row (time, category, 0, 1) |
| `Quiz.RepeatedMissScenario` | application_finale.py:137-150 | the same word missed twice in one quiz logs two misses that both show count 1, while the table counts 2 |
| `Quiz.CatExample` | application_finale.py:113-166 | on a category holding only cat/猫: "猫" scores 1 of 1, "dog" scores 0 of 1, and "dog" twice logs count 1 twice while the table counts 2 |

## Left out

- The tkinter window, its widgets, styles, message boxes and the history popup are presentation, so they are not modelled. Which buttons are enabled is not modelled either.
- The background image (PIL) is presentation.
- CSV parsing and writing are not modelled: extra columns, empty cells, number types and encodings. A file is its three columns.
- A history file that exists but holds no rows is the same as no history file.
- The randomness of `random.choice` is not modelled; the caller supplies the index.
- `Quiz.VocabQuizApp.AskQuestion`: requires the supplied index to be in range. In the source, `random.choice` raises on an empty table; the model does not represent that failure.
- `Quiz.VocabQuizApp.StartQuiz`: requires the supplied index to be in range of the category file when the file exists and the length is positive. An existing but empty category file makes the source's first `ask_question` raise in `random.choice`; the model does not represent that failure.
- The 1500 ms delay before the next question is event-loop scheduling. The caller calls `AskQuestion` after a `CheckAnswer` that returns `Correct` or `Incorrect`; after `Raised` the source schedules no next question, and the same word stays until a new start.
- `datetime.now()` and its formatting become an opaque `now` string.
- The category is fixed when a quiz starts. The source reads the selector again when it writes a miss or saves a result, and the model does not.
- The question count is an integer argument. Parsing the spinner's text, and the exception `int()` raises on bad text, are not modelled.
- A miss is kept as its four fields rather than as the formatted message text.
- `Quiz.VocabQuizApp.CheckAnswer` requires that a question has been asked. The Submit button stays disabled until then; calling the handler earlier would raise in the source.
