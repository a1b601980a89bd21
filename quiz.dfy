/** The quiz application's state and handlers: starting a quiz, asking and
    grading questions, ending a quiz into the score history, and the history
    and reset buttons. The disk is part of the state: the category files and
    the history file are fields that the handlers rewrite. */
module Quiz {
  import opened Wrappers
  import opened Text
  import opened WordBank
  import opened History

  /** The category names offered by the selector and the file of each. */
  const CsvFiles: map<string, string> := map[
    "Noun" := "Noun.csv",
    "Adjective" := "Adjective.csv",
    "Verbs" := "Verbs.csv",
    "TimeDate" := "TimeDate.csv",
    "Numbers & Counts" := "NumbersCounts.csv"]

  /** The category selected when the application opens. */
  const FirstCategory := "Noun"

  /** Written in a miss record in place of a blank answer. */
  const EmptyAnswer := "[empty]"

  /** One line of the review log of missed questions: the word, the expected
      answer, what was typed, and the mistake count shown with it. */
  datatype Miss = Miss(english: string, expected: string, given: string, mistakes: int)

  /** How a submitted answer was handled. `Raised` is a wrong answer met while
      no table is loaded: the handler fails after logging the miss. */
  datatype Graded = Correct | Incorrect | Raised

  /** The miss record for answer `input` to question `w`. Its count is the one
      in the question's snapshot plus one. */
  function MissFor(w: Entry, input: string): (m: Miss)
    ensures m.english == Trim(w.english) && m.expected == Trim(w.japanese)
    ensures m.given == EmptyAnswer <==> Trim(input) == [] || Trim(input) == EmptyAnswer
    ensures m.given != EmptyAnswer ==> m.given == Trim(input)
    ensures m.mistakes == w.mistakes + 1
  {
    var given := Trim(input);
    Miss(Trim(w.english), Trim(w.japanese), if given == [] then EmptyAnswer else given, w.mistakes + 1)
  }

  class VocabQuizApp {
    /** The category files on disk, by file name. */
    var files: map<string, Sheet>
    /** The rows of the score history file; empty when the file is absent. */
    var history: seq<HistoryRow>
    /** The table loaded by the last start, or None when that load failed. */
    var data: Option<seq<Entry>>
    /** The copy of the table taken at start; questions are drawn from it. */
    var questions: seq<Entry>
    var currentQ: int
    var score: int
    var quizLength: int
    var wrongAnswers: seq<Miss>
    /** The question last asked, if any. */
    var currentWord: Option<Entry>
    /** The category of the quiz last started. */
    var category: string

    ghost predicate Valid()
      reads this
    {
      (forall f :: f in files ==> WellFormed(files[f])) &&
      category in CsvFiles &&
      0 <= score <= currentQ
    }

    /** The application as it opens, over the files found on disk. */
    constructor (files: map<string, Sheet>, history: seq<HistoryRow>)
      requires forall f :: f in files ==> WellFormed(files[f])
      ensures Valid()
      ensures this.files == files && this.history == history
      ensures data == None && questions == [] && currentWord == None
      ensures currentQ == 0 && score == 0 && quizLength == 5 && wrongAnswers == []
      ensures category == FirstCategory
    {
      this.files := files;
      this.history := history;
      data := None;
      questions := [];
      currentQ := 0;
      score := 0;
      quizLength := 5;
      wrongAnswers := [];
      currentWord := None;
      category := FirstCategory;
    }

    /** The rows of file `filename`, or None when there is no such file. */
    function LoadCsv(filename: string): (r: Option<seq<Entry>>)
      reads this
      requires Valid()
      ensures r.Some? <==> filename in files
      ensures r.Some? ==> |r.value| == |files[filename].english|
      ensures r.Some? ==> r.value == Load(files[filename])
    {
      if filename in files then Some(Load(files[filename])) else None
    }

    /** A miss on `word`: every loaded row with the same `english` gains one
      mistake, and the whole table is written to the category's file. */
    method UpdateMistakeCount(word: Entry)
      requires Valid() && data.Some?
      modifies this`data, this`files
      ensures Valid()
      ensures data == Some(RecordMistake(old(data).value, word.english))
      ensures files == old(files)[CsvFiles[category] := Store(data.value)]
    {
      data := Some(RecordMistake(data.value, word.english));
      files := files[CsvFiles[category] := Store(data.value)];
    }

    /** Starts a quiz of `length` questions on `category`: the counters and the
      miss log are cleared, the category's file is loaded and, when it exists,
      copied into `questions` and the first question is asked. `pick` and
      `now` are passed on to that first AskQuestion. */
    method StartQuiz(category: string, length: int, pick: nat, now: string)
      requires Valid() && category in CsvFiles
      requires 0 < length && CsvFiles[category] in files ==>
        pick < |files[CsvFiles[category]].english|
      modifies this`currentQ, this`score, this`wrongAnswers, this`quizLength,
        this`category, this`data, this`questions, this`currentWord, this`history
      ensures Valid()
      ensures currentQ == 0 && score == 0 && wrongAnswers == [] && quizLength == length
      ensures this.category == category
      ensures data == (if CsvFiles[category] in files then Some(Load(files[CsvFiles[category]])) else None)
      ensures data.None? ==>
        questions == old(questions) && currentWord == old(currentWord) && history == old(history)
      ensures data.Some? ==> questions == data.value
      ensures data.Some? && 0 < length ==>
        currentWord == Some(questions[pick]) && history == old(history)
      ensures data.Some? && length <= 0 ==>
        currentWord == old(currentWord) &&
        history == old(history) + [HistoryRow(now, category, 0, length)]
    {
      currentQ := 0;
      score := 0;
      wrongAnswers := [];
      quizLength := length;
      this.category := category;
      var filename := CsvFiles[category];
      data := LoadCsv(filename);
      if data.Some? {
        questions := data.value;
        AskQuestion(pick, now);
      }
    }

    /** Asks the next question, `questions[pick]`, while fewer than
      `quizLength` have been answered; otherwise ends the quiz at time `now`. */
    method AskQuestion(pick: nat, now: string)
      requires Valid()
      requires currentQ < quizLength ==> pick < |questions|
      modifies this`currentWord, this`history
      ensures Valid()
      ensures currentQ < quizLength ==>
        currentWord == Some(questions[pick]) && history == old(history)
      ensures quizLength <= currentQ ==>
        currentWord == old(currentWord) &&
        history == old(history) + [HistoryRow(now, category, score, quizLength)]
    {
      if currentQ < quizLength {
        currentWord := Some(questions[pick]);
      } else {
        EndQuiz(now);
      }
    }

    /** Grades `input` against the question asked. A correct answer scores a
      point; a wrong one logs a miss, whose count is the question's snapshot
      count plus one, and records the mistake in the table and its file.
      Either way one more question has been answered. */
    method CheckAnswer(input: string) returns (g: Graded)
      requires Valid() && currentWord.Some?
      modifies this`score, this`currentQ, this`wrongAnswers, this`data, this`files
      ensures Valid()
      ensures g == Correct <==> Matches(input, currentWord.value.japanese)
      ensures g == Raised <==> g != Correct && old(data).None?
      ensures g == Correct ==>
        score == old(score) + 1 && currentQ == old(currentQ) + 1 &&
        wrongAnswers == old(wrongAnswers) && data == old(data) && files == old(files)
      ensures g != Correct ==>
        score == old(score) &&
        wrongAnswers == old(wrongAnswers) + [MissFor(currentWord.value, input)]
      ensures g == Incorrect ==>
        currentQ == old(currentQ) + 1 &&
        data == Some(RecordMistake(old(data).value, currentWord.value.english)) &&
        files == old(files)[CsvFiles[category] := Store(data.value)]
      ensures g == Raised ==>
        currentQ == old(currentQ) && data == old(data) && files == old(files)
    {
      var word := currentWord.value;
      if Trim(input) == Trim(word.japanese) {
        score := score + 1;
        g := Correct;
      } else {
        wrongAnswers := wrongAnswers + [MissFor(word, input)];
        if data.None? {
          return Raised;
        }
        UpdateMistakeCount(word);
        g := Incorrect;
      }
      currentQ := currentQ + 1;
    }

    /** Ends the quiz: its result is saved to the history. */
    method EndQuiz(now: string)
      requires Valid()
      modifies this`history
      ensures Valid()
      ensures history == old(history) + [HistoryRow(now, category, score, quizLength)]
    {
      SaveQuizResult(now);
    }

    /** Appends one row (time, category, score, quiz length) to the history. */
    method SaveQuizResult(now: string)
      requires Valid()
      modifies this`history
      ensures Valid()
      ensures |history| == |old(history)| + 1
      ensures history[..|old(history)|] == old(history)
      ensures history[|history| - 1] == HistoryRow(now, category, score, quizLength)
    {
      history := history + [HistoryRow(now, category, score, quizLength)];
    }

    /** The history rows the history window lists. */
    method ShowHistory() returns (rows: seq<HistoryRow>)
      requires Valid()
      ensures rows == Recent(history)
      ensures |rows| == Min(RecentCount, |history|)
      ensures rows == history[|history| - |rows|..]
    {
      rows := Recent(history);
    }

    /** Deletes the history file, if there is one. */
    method ClearHistory()
      requires Valid()
      modifies this`history
      ensures Valid()
      ensures history == []
    {
      history := [];
    }

    /** Sets every count in `category`'s file to 0, when the file exists. The
      loaded table is left as it is. */
    method ResetMistakeHistory(category: string)
      requires Valid() && category in CsvFiles
      modifies this`files
      ensures Valid()
      ensures CsvFiles[category] !in old(files) ==> files == old(files)
      ensures CsvFiles[category] in old(files) ==>
        files == old(files)[CsvFiles[category] := Store(ResetMistakes(Load(old(files)[CsvFiles[category]])))]
    {
      var df := LoadCsv(CsvFiles[category]);
      if df.Some? {
        files := files[CsvFiles[category] := Store(ResetMistakes(df.value))];
      }
    }
  }

  /** The words of the example below carry no surrounding whitespace. */
  lemma CatWords()
    ensures Trim("猫") == "猫" && Trim("cat") == "cat" && Trim("dog") == "dog"
  {
    var neko, english, dog := "猫", "cat", "dog";
    assert !IsSpace(neko[0]) && !IsSpace(english[0]) && !IsSpace(english[2]);
    assert !IsSpace(dog[0]) && !IsSpace(dog[2]);
    TrimUnpadded(neko);
    TrimUnpadded(english);
    TrimUnpadded(dog);
  }

  /** A new application over a "Noun" file holding only `w`, with a quiz of
      `length` questions started on it. */
  method StartOneWordQuiz(w: Entry, length: int, now: string) returns (app: VocabQuizApp)
    requires 0 < length
    ensures fresh(app) && app.Valid()
    ensures app.files == map["Noun.csv" := Store([w])] && app.history == []
    ensures app.data == Some([w]) && app.questions == [w] && app.currentWord == Some(w)
    ensures app.currentQ == 0 && app.score == 0 && app.quizLength == length
    ensures app.wrongAnswers == [] && app.category == "Noun"
  {
    app := new VocabQuizApp(map["Noun.csv" := Store([w])], []);
    LoadStore([w]);
    app.StartQuiz("Noun", length, 0, now);
  }

  /** A one-question quiz on a category holding one word, answered right: a
      point is scored, the count stays 0 and the result is saved. */
  method CorrectAnswerScenario(t0: string, english: string, japanese: string)
    returns (g: Graded, saved: seq<HistoryRow>)
    requires Trim(english) == english && Trim(japanese) == japanese
    ensures g == Correct && saved == [HistoryRow(t0, "Noun", 1, 1)]
  {
    var w := Entry(english, japanese, 0);
    var app := StartOneWordQuiz(w, 1, t0);
    g := app.CheckAnswer(japanese);
    assert g == Correct && app.score == 1;
    assert app.files["Noun.csv"] == Store([w]) && app.wrongAnswers == [];
    app.AskQuestion(0, t0);
    saved := app.history;
  }

  /** A quiz of `length` questions on a "Noun" file holding only `w`, whose
      first answer is wrong: no point, one miss logged with count 1, and the
      count in the table and in the file becomes 1. */
  method MissOnce(w: Entry, answer: string, length: int, now: string) returns (app: VocabQuizApp)
    requires Trim(w.english) == w.english && Trim(w.japanese) == w.japanese && Trim(answer) == answer
    requires answer != w.japanese && answer != [] && w.mistakes == 0 && 0 < length
    ensures fresh(app) && app.Valid()
    ensures app.files == map["Noun.csv" := Store([w.(mistakes := 1)])] && app.history == []
    ensures app.data == Some([w.(mistakes := 1)]) && app.questions == [w] && app.currentWord == Some(w)
    ensures app.currentQ == 1 && app.score == 0 && app.quizLength == length
    ensures app.wrongAnswers == [Miss(w.english, w.japanese, answer, 1)] && app.category == "Noun"
  {
    app := StartOneWordQuiz(w, length, now);
    var g := app.CheckAnswer(answer);
    assert g == Incorrect;
    assert app.data == Some([w.(mistakes := 1)]) by {
      var d := app.data.value;
      assert |d| == 1 && d[0] == w.(mistakes := 1);
      assert d == [d[0]];
    }
  }

  /** A one-question quiz answered wrong ends with a score of 0. */
  method WrongAnswerScenario(t1: string, english: string, japanese: string, answer: string)
    returns (saved: seq<HistoryRow>)
    requires Trim(english) == english && Trim(japanese) == japanese && Trim(answer) == answer
    requires answer != japanese && answer != []
    ensures saved == [HistoryRow(t1, "Noun", 0, 1)]
  {
    var app := MissOnce(Entry(english, japanese, 0), answer, 1, t1);
    app.AskQuestion(0, t1);
    saved := app.history;
  }

  /** The same word missed twice in one quiz: both miss records show the count
      taken at start plus one, while the table counts both misses. */
  method RepeatedMissScenario(t0: string, english: string, japanese: string, answer: string)
    returns (misses: seq<Miss>, count: int)
    requires Trim(english) == english && Trim(japanese) == japanese && Trim(answer) == answer
    requires answer != japanese && answer != []
    ensures misses == [Miss(english, japanese, answer, 1), Miss(english, japanese, answer, 1)]
    ensures count == 2
  {
    var w := Entry(english, japanese, 0);
    var app := MissOnce(w, answer, 2, t0);
    app.AskQuestion(0, t0);
    var g := app.CheckAnswer(answer);
    assert g == Incorrect;
    misses := app.wrongAnswers;
    count := app.data.value[0].mistakes;
  }

  /** The example of a "Noun" category holding only cat/猫: "猫" is right, "dog"
      is wrong, and "dog" twice in one quiz is counted twice. */
  method CatExample(t0: string, t1: string, t2: string)
    returns (right: seq<HistoryRow>, wrong: seq<HistoryRow>, misses: seq<Miss>, count: int)
    ensures right == [HistoryRow(t0, "Noun", 1, 1)] && wrong == [HistoryRow(t1, "Noun", 0, 1)]
    ensures misses == [Miss("cat", "猫", "dog", 1), Miss("cat", "猫", "dog", 1)] && count == 2
  {
    CatWords();
    var g;
    g, right := CorrectAnswerScenario(t0, "cat", "猫");
    wrong := WrongAnswerScenario(t1, "cat", "猫", "dog");
    misses, count := RepeatedMissScenario(t2, "cat", "猫", "dog");
  }
}
