/** A survey as text: what the server prints is what `readSurvey` reads (`SurveyCommon.cpp`,
    `SurveyServer2.cpp`). */
module Survey {
  import opened Bytes
  import opened Options
  import opened Decimal

  const NEWLINE := '\n'
  const INT_MAX := 0x7fff_ffff

  datatype Question = Question(text: string, responses: seq<string>)

  // ---- an istream ----

  /** What is still to be read, and the stream's two flags. */
  datatype Source = Source(unread: string, eof: bool, fail: bool) {
    predicate Good() {
      !eof && !fail
    }
  }

  /** `>>` into an int that was set to zero. */
  function ReadInt(s: Source): (int, Source) {
    if !s.Good() then (0, s.(fail := true))
    else
      var t := SkipSpace(s.unread);
      var r := Scan(t);
      if r.Some? then
        var (n, rest) := r.value;
        if -INT_MAX - 1 <= n <= INT_MAX then (n, Source(rest, rest == [], false)) else (0, Source(rest, rest == [], true))
      else
        var rest := if t != [] && (t[0] == '-' || t[0] == '+') then t[1..] else t;
        (0, Source(rest, rest == [], true))
  }

  /** `ignore`: one character. */
  function Ignore(s: Source): Source {
    if !s.Good() then s.(fail := true)
    else if s.unread == [] then s.(eof := true)
    else s.(unread := s.unread[1..])
  }

  predicate OneLine(s: string) {
    forall i :: 0 <= i < |s| ==> s[i] != NEWLINE
  }

  /** The characters before the first newline. */
  function Line(s: string): (r: string)
    ensures r <= s && OneLine(r)
    ensures |r| < |s| ==> s[|r|] == NEWLINE
  {
    if s == [] || s[0] == NEWLINE then [] else [s[0]] + Line(s[1..])
  }

  function GetLine(s: Source): (string, Source) {
    if !s.Good() then ([], s.(fail := true))
    else
      var r := Line(s.unread);
      if |r| < |s.unread| then (r, s.(unread := s.unread[|r| + 1..])) else (r, Source([], true, r == []))
  }

  /** An iostream: the reading side and what was written. */
  class Stream {
    var source: Source
    var written: string

    constructor (text: string)
      ensures source == Source(text, false, false) && written == []
    {
      source, written := Source(text, false, false), [];
    }

    method Put(s: string)
      modifies `written
      ensures written == old(written) + s
    {
      written := written + s;
    }

    method GetInt() returns (n: int)
      modifies `source
      ensures n == ReadInt(old(source)).0 && source == ReadInt(old(source)).1
    {
      n, source := ReadInt(source).0, ReadInt(source).1;
    }

    method Skip()
      modifies `source
      ensures source == Ignore(old(source))
    {
      source := Ignore(source);
    }

    method GetText() returns (line: string)
      modifies `source
      ensures line == GetLine(old(source)).0 && source == GetLine(old(source)).1
    {
      line, source := GetLine(source).0, GetLine(source).1;
    }
  }

  // ---- readSurvey ----

  /** A count and the newline behind it. */
  function ReadCount(s: Source): (int, Source) {
    (ReadInt(s).0, Ignore(ReadInt(s).1))
  }

  function ReadLines(s: Source, n: nat): (seq<string>, Source)
    decreases n
  {
    if n == 0 then ([], s)
    else
      var (line, s1) := GetLine(s);
      var (more, s2) := ReadLines(s1, n - 1);
      ([line] + more, s2)
  }

  /** One question; a negative number of responses makes the vector's constructor throw. */
  function ReadQuestion(s: Source): (Option<Question>, Source) {
    var (text, s1) := GetLine(s);
    var (count, s2) := ReadCount(s1);
    if count < 0 then (None, s2)
    else
      var (lines, s3) := ReadLines(s2, count);
      (Some(Question(text, lines)), s3)
  }

  function ReadQuestions(s: Source, n: nat): (Option<seq<Question>>, Source)
    decreases n
  {
    if n == 0 then (Some([]), s)
    else
      var (q, s1) := ReadQuestion(s);
      if q == None then (None, s1)
      else
        var (more, s2) := ReadQuestions(s1, n - 1);
        (Joined([q.value], more), s2)
  }

  function Read(s: Source): (Option<seq<Question>>, Source) {
    var (count, s1) := ReadCount(s);
    if count < 0 then (None, s1) else ReadQuestions(s1, count)
  }

  /** The inner loop of `readSurvey`. */
  method ReadResponses(stream: Stream, n: nat) returns (responses: seq<string>)
    modifies stream`source
    ensures responses == ReadLines(old(stream.source), n).0
    ensures stream.source == ReadLines(old(stream.source), n).1
  {
    ghost var s := stream.source;
    responses := [];
    for r := 0 to n
      invariant ReadLines(s, n).0 == responses + ReadLines(stream.source, n - r).0
      invariant ReadLines(s, n).1 == ReadLines(stream.source, n - r).1
    {
      ghost var before, done := stream.source, responses;
      var line := stream.GetText();
      responses := responses + [line];
      Associative(done, [line], ReadLines(stream.source, n - r - 1).0);
    }
  }

  /** The body of its outer loop. */
  method GetQuestion(stream: Stream) returns (q: Option<Question>)
    modifies stream`source
    ensures q == ReadQuestion(old(stream.source)).0
    ensures stream.source == ReadQuestion(old(stream.source)).1
  {
    var text := stream.GetText();
    var count := stream.GetInt();
    stream.Skip();
    if count < 0 {
      return None;
    }
    var responses := ReadResponses(stream, count);
    return Some(Question(text, responses));
  }

  /** The outer loop. */
  method GetQuestions(stream: Stream, count: nat) returns (qList: Option<seq<Question>>)
    modifies stream`source
    ensures qList == ReadQuestions(old(stream.source), count).0
    ensures stream.source == ReadQuestions(old(stream.source), count).1
  {
    ghost var s := stream.source;
    var questions: seq<Question> := [];
    JoinedNone(ReadQuestions(s, count).0);
    for i := 0 to count
      invariant ReadQuestions(s, count).0 == Joined(questions, ReadQuestions(stream.source, count - i).0)
      invariant ReadQuestions(s, count).1 == ReadQuestions(stream.source, count - i).1
    {
      ghost var before := stream.source;
      QuestionsStep(before, count - i);
      var q := GetQuestion(stream);
      if q == None {
        return None;
      }
      JoinedStep(questions, q.value, ReadQuestions(stream.source, count - i - 1).0);
      questions := questions + [q.value];
    }
    assert questions + [] == questions;
    return Some(questions);
  }

  lemma QuestionsStep(s: Source, n: nat)
    requires 0 < n
    ensures ReadQuestion(s).0 == None ==> ReadQuestions(s, n) == (None, ReadQuestion(s).1)
    ensures ReadQuestion(s).0.Some? ==>
            ReadQuestions(s, n).0 == Joined([ReadQuestion(s).0.value], ReadQuestions(ReadQuestion(s).1, n - 1).0)
    ensures ReadQuestion(s).0.Some? ==> ReadQuestions(s, n).1 == ReadQuestions(ReadQuestion(s).1, n - 1).1
  {
  }

  /** `readSurvey`; `None` if it throws, and the result tells whether all went well. */
  method ReadSurvey(stream: Stream) returns (qList: Option<seq<Question>>, ok: bool)
    modifies stream`source
    ensures qList == Read(old(stream.source)).0
    ensures stream.source == Read(old(stream.source)).1
    ensures ok == !stream.source.fail
  {
    var count := stream.GetInt();
    stream.Skip();
    if count < 0 {
      return None, !stream.source.fail;
    }
    qList := GetQuestions(stream, count);
    ok := !stream.source.fail;
  }

  function Joined(a: seq<Question>, b: Option<seq<Question>>): Option<seq<Question>> {
    if b == None then None else Some(a + b.value)
  }

  lemma JoinedNone(b: Option<seq<Question>>)
    ensures Joined([], b) == b
  {
    if b.Some? {
      assert [] + b.value == b.value;
    }
  }

  lemma JoinedStep(a: seq<Question>, q: Question, b: Option<seq<Question>>)
    ensures Joined(a, Joined([q], b)) == Joined(a + [q], b)
  {
    if b.Some? {
      Associative(a, [q], b.value);
    }
  }

  // ---- conductSurvey ----

  function Lines(lines: seq<string>): string {
    if lines == [] then [] else lines[0] + [NEWLINE] + Lines(lines[1..])
  }

  function QuestionText(q: Question): string {
    q.text + [NEWLINE] + Digits(|q.responses|) + [NEWLINE] + Lines(q.responses)
  }

  function QuestionsText(qs: seq<Question>): string {
    if qs == [] then [] else QuestionText(qs[0]) + QuestionsText(qs[1..])
  }

  function Text(qs: seq<Question>): string {
    Digits(|qs|) + [NEWLINE] + QuestionsText(qs)
  }

  method PutLine(stream: Stream, line: string)
    modifies stream`written
    ensures stream.written == old(stream.written) + line + [NEWLINE]
  {
    stream.Put(line);
    stream.Put([NEWLINE]);
  }

  method PutQuestion(stream: Stream, q: Question)
    modifies stream`written
    ensures stream.written == old(stream.written) + QuestionText(q)
  {
    PutLine(stream, q.text);
    PutLine(stream, Digits(|q.responses|));
    ghost var head := stream.written;
    for r := 0 to |q.responses|
      invariant stream.written + Lines(q.responses[r..]) == head + Lines(q.responses)
    {
      ghost var before := stream.written;
      PutLine(stream, q.responses[r]);
      assert q.responses[r..][1..] == q.responses[r + 1..];
      assert before + Lines(q.responses[r..]) == stream.written + Lines(q.responses[r + 1..]);
    }
    assert stream.written + [] == stream.written;
    assert head + Lines(q.responses) == old(stream.written) + QuestionText(q);
  }

  /** The first part of `conductSurvey`. */
  method PrintSurvey(qList: seq<Question>, stream: Stream)
    modifies stream`written
    ensures stream.written == old(stream.written) + Text(qList)
  {
    PutLine(stream, Digits(|qList|));
    ghost var head := stream.written;
    for q := 0 to |qList|
      invariant stream.written + QuestionsText(qList[q..]) == head + QuestionsText(qList)
    {
      ghost var before := stream.written;
      PutQuestion(stream, qList[q]);
      assert qList[q..][1..] == qList[q + 1..];
      Associative(before, QuestionText(qList[q]), QuestionsText(qList[q + 1..]));
    }
    assert stream.written + [] == stream.written;
    assert head + QuestionsText(qList) == old(stream.written) + Text(qList);
  }

  // ---- and back ----

  /** The sizes an int can tell. */
  predicate Small(qs: seq<Question>) {
    |qs| <= INT_MAX && forall i :: 0 <= i < |qs| ==> |qs[i].responses| <= INT_MAX
  }

  predicate OneLineEach(q: Question) {
    OneLine(q.text) && forall i :: 0 <= i < |q.responses| ==> OneLine(q.responses[i])
  }

  /** No string of the survey holds a newline. */
  predicate Clean(qs: seq<Question>) {
    forall i :: 0 <= i < |qs| ==> OneLineEach(qs[i])
  }

  function At(text: string): Source {
    Source(text, false, false)
  }

  lemma {:induction false} LineIs(line: string, rest: string)
    requires OneLine(line)
    ensures Line(line + [NEWLINE] + rest) == line
  {
    var s := line + [NEWLINE] + rest;
    if line != [] {
      LineIs(line[1..], rest);
      assert s[1..] == line[1..] + [NEWLINE] + rest;
      assert line == [line[0]] + line[1..];
    }
  }

  lemma LineComesBack(line: string, rest: string)
    requires OneLine(line)
    ensures GetLine(At(line + [NEWLINE] + rest)) == (line, At(rest))
  {
    var s := line + [NEWLINE] + rest;
    LineIs(line, rest);
    assert s[|line| + 1..] == rest;
  }

  lemma CountComesBack(n: nat, rest: string)
    requires n <= INT_MAX
    ensures ReadCount(At(Digits(n) + [NEWLINE] + rest)) == (n, At(rest))
  {
    var s := Digits(n) + [NEWLINE] + rest;
    Associative(Digits(n), [NEWLINE], rest);
    ScanNatural(n, [NEWLINE] + rest);
    assert IsDigit(Digits(n)[0]) && s[0] == Digits(n)[0];
    assert SkipSpace(s) == s;
  }

  lemma FirstLineComesBack(line: string, more: string, n: nat)
    requires OneLine(line) && 0 < n
    ensures ReadLines(At(line + [NEWLINE] + more), n).0 == [line] + ReadLines(At(more), n - 1).0
    ensures ReadLines(At(line + [NEWLINE] + more), n).1 == ReadLines(At(more), n - 1).1
  {
    LineComesBack(line, more);
  }

  lemma {:induction false} LinesComeBack(lines: seq<string>, rest: string)
    requires forall i :: 0 <= i < |lines| ==> OneLine(lines[i])
    ensures ReadLines(At(Lines(lines) + rest), |lines|).0 == lines
    ensures ReadLines(At(Lines(lines) + rest), |lines|).1 == At(rest)
    decreases |lines|
  {
    if lines == [] {
      assert Lines(lines) + rest == rest;
    } else {
      var line, tail := lines[0], lines[1..];
      FirstLineComesBack(line, Lines(tail) + rest, |lines|);
      LinesComeBack(tail, rest);
      Associative(line + [NEWLINE], Lines(tail), rest);
      assert lines == [line] + tail;
    }
  }

  lemma QuestionComesBack(q: Question, rest: string)
    requires OneLineEach(q) && |q.responses| <= INT_MAX
    ensures ReadQuestion(At(QuestionText(q) + rest)) == (Some(q), At(rest))
  {
    var lines := Lines(q.responses) + rest;
    var counted := Digits(|q.responses|) + [NEWLINE] + lines;
    assert QuestionText(q) + rest == q.text + [NEWLINE] + counted;
    LineComesBack(q.text, counted);
    CountComesBack(|q.responses|, lines);
    LinesComeBack(q.responses, rest);
  }

  lemma FirstQuestionComesBack(q: Question, more: string, n: nat)
    requires OneLineEach(q) && |q.responses| <= INT_MAX && 0 < n
    ensures ReadQuestions(At(QuestionText(q) + more), n).0 == Joined([q], ReadQuestions(At(more), n - 1).0)
    ensures ReadQuestions(At(QuestionText(q) + more), n).1 == ReadQuestions(At(more), n - 1).1
  {
    QuestionComesBack(q, more);
    QuestionsStep(At(QuestionText(q) + more), n);
  }

  ghost predicate ComeBack(qs: seq<Question>, rest: string) {
    ReadQuestions(At(QuestionsText(qs) + rest), |qs|) == (Some(qs), At(rest))
  }

  lemma OneMoreComesBack(q: Question, tail: seq<Question>, rest: string)
    requires OneLineEach(q) && |q.responses| <= INT_MAX && ComeBack(tail, rest)
    ensures ComeBack([q] + tail, rest)
  {
    var qs := [q] + tail;
    assert qs[1..] == tail;
    FirstQuestionComesBack(q, QuestionsText(tail) + rest, |qs|);
    Associative(QuestionText(q), QuestionsText(tail), rest);
  }

  lemma {:induction false} QuestionsComeBack(qs: seq<Question>, rest: string)
    requires Clean(qs) && Small(qs)
    ensures ComeBack(qs, rest)
    decreases |qs|
  {
    if qs == [] {
      assert QuestionsText(qs) + rest == rest;
    } else {
      QuestionsComeBack(qs[1..], rest);
      OneMoreComesBack(qs[0], qs[1..], rest);
      assert [qs[0]] + qs[1..] == qs;
    }
  }

  // ---- what is no survey ----

  /** A negative count of responses makes the vector's constructor throw, wherever it stands. */
  lemma NegativeCountThrows(text: string, n: int, rest: string)
    requires OneLine(text) && -INT_MAX - 1 <= n < 0
    ensures Read(At(Printed(n) + [NEWLINE] + rest)).0 == None
    ensures ReadQuestion(At(text + [NEWLINE] + (Printed(n) + [NEWLINE] + rest))).0 == None
  {
    var s := Printed(n) + [NEWLINE] + rest;
    Associative(Printed(n), [NEWLINE], rest);
    ScanPrinted(n, [NEWLINE] + rest);
    PrintedNotSpace(n);
    assert s[0] == Printed(n)[0] && SkipSpace(s) == s;
    LineComesBack(text, s);
  }

  /** Where no number stands, none is read: there are no questions, and the result tells. */
  lemma NoCountFails(s: string)
    requires Scan(SkipSpace(s)).None?
    ensures Read(At(s)).0 == Some([]) && Read(At(s)).1.fail
  {
  }

  /** A stream that failed stays so, and yields empty lines and zero counts. */
  lemma {:induction false} FailureStays(s: Source, n: nat)
    requires s.fail
    ensures ReadQuestions(s, n).0 == Some(seq(n, _ => Question("", []))) && ReadQuestions(s, n).1.fail
    decreases n
  {
    if 0 < n {
      assert ReadQuestion(s).0 == Some(Question("", []));
      QuestionsStep(s, n);
      FailureStays(ReadQuestion(s).1, n - 1);
      assert [Question("", [])] + seq(n - 1, _ => Question("", [])) == seq(n, _ => Question("", []));
    } else {
      assert seq(0, _ => Question("", [])) == [];
    }
  }

  /** Whatever is read is clean. */
  lemma {:induction false} LinesAreClean(s: Source, n: nat)
    ensures |ReadLines(s, n).0| == n
    ensures forall i :: 0 <= i < n ==> OneLine(ReadLines(s, n).0[i])
    decreases n
  {
    if n != 0 {
      LinesAreClean(GetLine(s).1, n - 1);
    }
  }

  lemma QuestionIsClean(s: Source)
    ensures ReadQuestion(s).0.Some? ==> OneLineEach(ReadQuestion(s).0.value)
  {
    var (text, s1) := GetLine(s);
    var (count, s2) := ReadCount(s1);
    if 0 <= count {
      LinesAreClean(s2, count);
    }
  }

  lemma {:induction false} QuestionsAreClean(s: Source, n: nat)
    ensures ReadQuestions(s, n).0.Some? ==> Clean(ReadQuestions(s, n).0.value)
    decreases n
  {
    if n != 0 {
      QuestionsStep(s, n);
      QuestionIsClean(s);
      QuestionsAreClean(ReadQuestion(s).1, n - 1);
    }
  }

  /** The printed survey comes back, with the stream left behind it and in good order, exactly
      if no string in it holds a newline. */
  lemma SurveyComesBack(qs: seq<Question>, rest: string)
    requires Small(qs)
    ensures Read(At(Text(qs) + rest)) == (Some(qs), At(rest)) <==> Clean(qs)
  {
    var more := QuestionsText(qs) + rest;
    assert Text(qs) + rest == Digits(|qs|) + [NEWLINE] + more;
    CountComesBack(|qs|, more);
    if Clean(qs) {
      QuestionsComeBack(qs, rest);
    } else {
      QuestionsAreClean(At(more), |qs|);
    }
  }
}
