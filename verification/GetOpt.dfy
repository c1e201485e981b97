/** `getopt.c`: one call as a step on the scanner's state, and what calling it until the end
    gives for argument lists written by the rules. */
module GetOpt {
  import opened Options

  /** `optind` and `place`; `place` is what is left of the word being scanned. */
  datatype Scanner = Scanner(optind: nat, place: string)

  /** What a call returns: -1, an option letter with `optarg`, '?' for an unknown letter, or
      for a missing argument ':' or '?', whichever the program asked for. */
  datatype Found = End | Letter(c: char, arg: Option<string>) | BadChar(c: char) | NoArgument(c: char, code: char)

  /** A program whose option string starts with a colon wants to tell the two faults apart. */
  function BadArg(ostr: string): char {
    if ostr != "" && ostr[0] == ':' then ':' else '?'
  }

  /** `strchr`: the first position of the letter in the option string, or its length. */
  function Position(ostr: string, c: char): (i: nat)
    ensures i <= |ostr|
    ensures i < |ostr| ==> ostr[i] == c
    ensures forall k :: 0 <= k < i ==> ostr[k] != c
  {
    if ostr == "" || ostr[0] == c then 0 else 1 + Position(ostr[1..], c)
  }

  predicate Known(ostr: string, c: char) {
    c != ':' && Position(ostr, c) < |ostr|
  }

  predicate TakesArgument(ostr: string, c: char) {
    var i := Position(ostr, c);
    i + 1 < |ostr| && ostr[i + 1] == ':'
  }

  /** Past the last letter of a word the index moves on. */
  function Advance(s: Scanner, rest: string): Scanner {
    Scanner(if rest == "" then s.optind + 1 else s.optind, rest)
  }

  /** The call from where the letter is read. */
  function ScanLetter(argv: seq<string>, ostr: string, s: Scanner): (Found, Scanner)
    requires s.place != ""
  {
    var c, rest := s.place[0], s.place[1..];
    if !Known(ostr, c) then
      if c == '-' then (End, s.(place := rest)) else (BadChar(c), Advance(s, rest))
    else if !TakesArgument(ostr, c) then (Letter(c, None), Advance(s, rest))
    else if rest != "" then (Letter(c, Some(rest)), Scanner(s.optind + 1, ""))
    else if |argv| <= s.optind + 1 then (NoArgument(c, BadArg(ostr)), Scanner(s.optind + 1, ""))
    else (Letter(c, Some(argv[s.optind + 1])), Scanner(s.optind + 2, ""))
  }

  /** One call of `getopt`. */
  function Scan(argv: seq<string>, ostr: string, s: Scanner): (Found, Scanner) {
    if s.place != "" then ScanLetter(argv, ostr, s)
    else if |argv| <= s.optind || argv[s.optind] == "" || argv[s.optind][0] != '-' then (End, s)
    else
      var word := argv[s.optind];
      if |word| == 1 then ScanLetter(argv, ostr, s.(place := word))
      else if word[1] == '-' then (End, Scanner(s.optind + 1, ""))
      else ScanLetter(argv, ostr, s.(place := word[1..]))
  }

  /** The library's static and global variables. */
  class Parser {
    var optind: nat
    var place: string
    var optreset: bool
    var optopt: char
    var optarg: Option<string>

    constructor ()
      ensures optind == 1 && place == "" && !optreset
    {
      optind, place, optreset, optopt, optarg := 1, "", false, '?', None;
    }

    function State(): Scanner
      reads this
    {
      Scanner(optind, if optreset then "" else place)
    }

    /** `getopt`; the strings are the program's, so nothing but these variables changes. */
    method GetOpt(argv: seq<string>, ostr: string) returns (found: Found)
      modifies this
      ensures (found, State()) == Scan(argv, ostr, old(State()))
      ensures !optreset
      ensures found.Letter? ==> optopt == found.c && optarg == found.arg
      ensures found.BadChar? || found.NoArgument? ==> optopt == found.c
    {
      if optreset || place == "" {
        optreset := false;
        place := "";
        if |argv| <= optind || argv[optind] == "" || argv[optind][0] != '-' {
          return End;
        }
        place := argv[optind];
        if 1 < |place| {
          place := place[1..];
          if place[0] == '-' {
            optind := optind + 1;
            place := "";
            return End;
          }
        }
      }
      assert Scan(argv, ostr, old(State())) == ScanLetter(argv, ostr, Scanner(optind, place));
      optopt := place[0];
      place := place[1..];
      var oli := Position(ostr, optopt);
      if optopt == ':' || oli == |ostr| {
        if optopt == '-' {
          return End;
        }
        if place == "" {
          optind := optind + 1;
        }
        return BadChar(optopt);
      }
      oli := oli + 1;
      if oli == |ostr| || ostr[oli] != ':' {
        optarg := None;
        if place == "" {
          optind := optind + 1;
        }
      } else {
        if place != "" {
          optarg := Some(place);
        } else {
          optind := optind + 1;
          if |argv| <= optind {
            return NoArgument(optopt, if ostr[0] == ':' then ':' else '?');
          }
          optarg := Some(argv[optind]);
        }
        place := "";
        optind := optind + 1;
      }
      return Letter(optopt, optarg);
    }
  }

  // ---- every call gets on ----

  /** A half-read word is the one at `optind`. */
  ghost predicate Within(argv: seq<string>, s: Scanner) {
    s.optind <= |argv| &&
    (s.place != "" ==> s.optind < |argv| && |s.place| <= |argv[s.optind]|)
  }

  function Letters(words: seq<string>): nat {
    if words == [] then 0 else |words[0]| + Letters(words[1..])
  }

  /** What is left to be read. */
  function Left(argv: seq<string>, s: Scanner): nat
    requires s.optind <= |argv|
  {
    if s.place == "" then Letters(argv[s.optind..])
    else if s.optind < |argv| then |s.place| + Letters(argv[s.optind + 1..]) else 0
  }

  lemma LettersFrom(argv: seq<string>, i: nat)
    requires i < |argv|
    ensures Letters(argv[i..]) == |argv[i]| + Letters(argv[i + 1..])
  {
    assert argv[i..][1..] == argv[i + 1..];
  }

  lemma LetterGetsOn(argv: seq<string>, ostr: string, s: Scanner)
    requires Within(argv, s) && s.place != ""
    ensures var (found, t) := ScanLetter(argv, ostr, s);
            Within(argv, t) && s.optind <= t.optind && (!found.End? ==> Left(argv, t) < Left(argv, s))
  {
    if s.optind + 1 < |argv| {
      LettersFrom(argv, s.optind + 1);
    }
  }

  /** A call that does not return -1 reads at least one letter; the index never goes back and
      never past the end; and a half-read word stays the one at the index. */
  lemma CallsGetOn(argv: seq<string>, ostr: string, s: Scanner)
    requires Within(argv, s)
    ensures var (found, t) := Scan(argv, ostr, s);
            Within(argv, t) && s.optind <= t.optind &&
            (!found.End? ==> Left(argv, t) < Left(argv, s))
  {
    if s.place != "" {
      LetterGetsOn(argv, ostr, s);
    } else if s.optind < |argv| && argv[s.optind] != "" && argv[s.optind][0] == '-' {
      var word := argv[s.optind];
      LettersFrom(argv, s.optind);
      LetterGetsOn(argv, ostr, s.(place := if |word| == 1 then word else word[1..]));
    }
  }

  /** Calling until -1: everything returned before, and the state at the end. */
  function ScanAll(argv: seq<string>, ostr: string, s: Scanner): (seq<Found>, Scanner)
    requires Within(argv, s)
    decreases Left(argv, s)
  {
    CallsGetOn(argv, ostr, s);
    var (found, t) := Scan(argv, ostr, s);
    if found.End? then ([], t)
    else
      var (more, u) := ScanAll(argv, ostr, t);
      ([found] + more, u)
  }

  // ---- option strings written by the rules ----

  datatype Declared = Declared(c: char, takes: bool) {
    function Written(): string
    {
      if takes then [c, ':'] else [c]
    }
  }

  /** The option string for these letters. */
  function OptString(letters: seq<Declared>): string {
    if letters == [] then ""
    else letters[0].Written() + OptString(letters[1..])
  }

  ghost predicate Proper(letters: seq<Declared>) {
    (forall i :: 0 <= i < |letters| ==> letters[i].c != ':') &&
    forall i, j :: 0 <= i < j < |letters| ==> letters[i].c != letters[j].c
  }

  lemma {:induction false} PositionBehind(front: string, ostr: string, c: char)
    requires c !in front
    ensures Position(front + ostr, c) == |front| + Position(ostr, c)
  {
    if front == "" {
      assert front + ostr == ostr;
    } else {
      assert (front + ostr)[1..] == front[1..] + ostr;
      PositionBehind(front[1..], ostr, c);
    }
  }

  lemma TakesBehind(front: string, ostr: string, c: char)
    requires c !in front && Position(ostr, c) < |ostr|
    ensures Position(front + ostr, c) < |front + ostr|
    ensures TakesArgument(front + ostr, c) <==> TakesArgument(ostr, c)
  {
    PositionBehind(front, ostr, c);
    var i := Position(ostr, c);
    assert i + 1 < |ostr| ==> (front + ostr)[|front| + i + 1] == ostr[i + 1];
  }

  lemma TakesFirst(d: Declared, ostr: string)
    requires ostr != "" ==> ostr[0] != ':'
    ensures Position(d.Written() + ostr, d.c) == 0
    ensures TakesArgument(d.Written() + ostr, d.c) <==> d.takes
  {
  }

  lemma {:induction false} DeclaredAt(letters: seq<Declared>, i: nat)
    requires Proper(letters) && i < |letters|
    ensures var c := letters[i].c;
            Position(OptString(letters), c) < |OptString(letters)| &&
            (TakesArgument(OptString(letters), c) <==> letters[i].takes)
  {
    var tail := OptString(letters[1..]);
    if i == 0 {
      assert tail != "" ==> tail[0] == letters[1].c;
      TakesFirst(letters[0], tail);
    } else {
      DeclaredAt(letters[1..], i - 1);
      TakesBehind(letters[0].Written(), tail, letters[i].c);
    }
  }

  lemma {:induction false} Undeclared(letters: seq<Declared>, c: char)
    requires c != ':' && forall i :: 0 <= i < |letters| ==> letters[i].c != c
    ensures Position(OptString(letters), c) == |OptString(letters)|
  {
    if letters != [] {
      Undeclared(letters[1..], c);
      PositionBehind(letters[0].Written(), OptString(letters[1..]), c);
    }
  }

  lemma ColonInFront(ostr: string, c: char)
    ensures Known(":" + ostr, c) <==> Known(ostr, c)
    ensures c != ':' ==> (TakesArgument(":" + ostr, c) <==> TakesArgument(ostr, c))
  {
    assert (":" + ostr)[1..] == ostr;
  }

  /** Exactly the letters declared are known, and take an argument as declared; a colon in
      front, which asks for the other complaint, changes nothing of that. */
  lemma OptStringDeclares(letters: seq<Declared>, front: string, c: char)
    requires Proper(letters) && (front == "" || front == ":")
    ensures var ostr := front + OptString(letters);
            (Known(ostr, c) <==> exists i :: 0 <= i < |letters| && letters[i].c == c) &&
            forall i :: 0 <= i < |letters| && letters[i].c == c ==> (TakesArgument(ostr, c) <==> letters[i].takes)
  {
    if front == "" {
      assert front + OptString(letters) == OptString(letters);
    } else {
      ColonInFront(OptString(letters), c);
    }
    if i :| 0 <= i < |letters| && letters[i].c == c {
      DeclaredAt(letters, i);
    } else if c != ':' {
      Undeclared(letters, c);
    }
  }

  // ---- argument lists written by the rules ----

  /** A letter of the program's that takes no argument; or one it does not know, but not a
      dash, which would be taken for the end. */
  predicate Flag(ostr: string, c: char) {
    if Known(ostr, c) then !TakesArgument(ostr, c) else c != '-'
  }

  predicate Flags(ostr: string, flags: string) {
    forall i :: 0 <= i < |flags| ==> Flag(ostr, flags[i])
  }

  /** How options can be written: letters without arguments together in a word, and at the
      end of such a word perhaps one with its argument, attached or in the next word. */
  datatype Item =
    | Cluster(flags: string)
    | Attached(flags: string, c: char, value: string)
    | Separate(flags: string, c: char, value: string)
  {
    predicate Valid(ostr: string) {
      var letters := match this
        case Cluster(flags) => flags
        case Attached(flags, c, _) => flags + [c]
        case Separate(flags, c, _) => flags + [c];
      letters != "" && letters[0] != '-' &&
      Flags(ostr, flags) &&
      (!Cluster? ==> Known(ostr, c) && TakesArgument(ostr, c)) &&
      (Attached? ==> value != "")
    }

    function Words(): seq<string> {
      match this
      case Cluster(flags) => ["-" + flags]
      case Attached(flags, c, value) => ["-" + (flags + ([c] + value))]
      case Separate(flags, c, value) => ["-" + (flags + [c]), value]
    }

    /** The options it stands for. */
    function Meaning(ostr: string): seq<Found> {
      match this
      case Cluster(flags) => Plain(ostr, flags)
      case Attached(flags, c, value) => Plain(ostr, flags) + [Letter(c, Some(value))]
      case Separate(flags, c, value) => Plain(ostr, flags) + [Letter(c, Some(value))]
    }
  }

  function Plain(ostr: string, flags: string): (r: seq<Found>)
    ensures |r| == |flags|
  {
    if flags == "" then [] else [Single(ostr, flags[0])] + Plain(ostr, flags[1..])
  }

  function Single(ostr: string, c: char): Found {
    if Known(ostr, c) then Letter(c, None) else BadChar(c)
  }

  function Render(items: seq<Item>): seq<string> {
    if items == [] then [] else items[0].Words() + Render(items[1..])
  }

  function Meanings(ostr: string, items: seq<Item>): seq<Found> {
    if items == [] then [] else items[0].Meaning(ostr) + Meanings(ostr, items[1..])
  }

  /** What follows the options: nothing, an operand, a lone "-", or a word that begins with
      "--", which is skipped. */
  predicate OperandsBegin(ostr: string, rest: seq<string>) {
    rest == [] || rest[0] == "" || rest[0][0] != '-' ||
    (rest[0] == "-" && !Known(ostr, '-')) || (1 < |rest[0]| && rest[0][1] == '-')
  }

  function Skipped(rest: seq<string>): nat {
    if rest != [] && 1 < |rest[0]| && rest[0][0] == '-' && rest[0][1] == '-' then 1 else 0
  }

  /** The letters without arguments at the front of a word, read one call each. */
  lemma {:induction false} FlagsRead(argv: seq<string>, ostr: string, k: nat, flags: string, tail: string)
    requires k < |argv| && |flags + tail| <= |argv[k]|
    requires Flags(ostr, flags)
    requires tail != ""
    ensures Within(argv, Scanner(k, flags + tail)) && Within(argv, Scanner(k, tail))
    ensures var (more, u) := ScanAll(argv, ostr, Scanner(k, tail));
            ScanAll(argv, ostr, Scanner(k, flags + tail)) == (Plain(ostr, flags) + more, u)
    decreases |flags|
  {
    if flags == "" {
      assert flags + tail == tail;
      var (more, u) := ScanAll(argv, ostr, Scanner(k, tail));
      assert [] + more == more;
    } else {
      var s := Scanner(k, flags + tail);
      assert (flags + tail)[1..] == flags[1..] + tail;
      CallsGetOn(argv, ostr, s);
      assert Scan(argv, ostr, s) == (Single(ostr, flags[0]), Scanner(k, flags[1..] + tail));
      FlagsRead(argv, ostr, k, flags[1..], tail);
      var (more, u) := ScanAll(argv, ostr, Scanner(k, tail));
      assert [Single(ostr, flags[0])] + (Plain(ostr, flags[1..]) + more) == Plain(ostr, flags) + more;
    }
  }

  /** Scanning a word's letters is scanning the word. */
  lemma WordEntered(argv: seq<string>, ostr: string, k: nat, letters: string)
    requires k < |argv| && argv[k] == "-" + letters && letters != "" && letters[0] != '-'
    ensures Within(argv, Scanner(k, "")) && Within(argv, Scanner(k, letters))
    ensures ScanAll(argv, ostr, Scanner(k, "")) == ScanAll(argv, ostr, Scanner(k, letters))
  {
    assert argv[k][1..] == letters && argv[k][0] == '-' && argv[k][1] == letters[0];
    assert Scan(argv, ostr, Scanner(k, "")) == Scan(argv, ostr, Scanner(k, letters));
  }

  /** One item read: its meaning comes first, then whatever follows its words. */
  lemma ItemRead(argv: seq<string>, ostr: string, k: nat, item: Item)
    requires item.Valid(ostr) && k + |item.Words()| <= |argv|
    requires argv[k..k + |item.Words()|] == item.Words()
    ensures Within(argv, Scanner(k, "")) && Within(argv, Scanner(k + |item.Words()|, ""))
    ensures var (more, u) := ScanAll(argv, ostr, Scanner(k + |item.Words()|, ""));
            ScanAll(argv, ostr, Scanner(k, "")) == (item.Meaning(ostr) + more, u)
  {
    assert argv[k] == argv[k..k + |item.Words()|][0] == item.Words()[0];
    match item
    case Cluster(flags) =>
      ClusterRead(argv, ostr, k, flags);
    case Attached(flags, c, value) =>
      OptionRead(argv, ostr, k, flags, c, value, [c] + value, k + 1);
    case Separate(flags, c, value) =>
      assert argv[k + 1] == argv[k..k + 2][1] == value;
      OptionRead(argv, ostr, k, flags, c, value, [c], k + 2);
  }

  /** A word that ends in a letter with its argument. */
  lemma OptionRead(argv: seq<string>, ostr: string, k: nat, flags: string, c: char, value: string, tail: string, next: nat)
    requires k < |argv| && argv[k] == "-" + (flags + tail) && (flags + [c])[0] != '-'
    requires Flags(ostr, flags)
    requires Known(ostr, c) && TakesArgument(ostr, c)
    requires (tail == [c] + value && value != "" && next == k + 1) ||
             (tail == [c] && next == k + 2 && k + 1 < |argv| && argv[k + 1] == value)
    ensures Within(argv, Scanner(k, "")) && Within(argv, Scanner(next, ""))
    ensures var (more, u) := ScanAll(argv, ostr, Scanner(next, ""));
            ScanAll(argv, ostr, Scanner(k, "")) == ((Plain(ostr, flags) + [Letter(c, Some(value))]) + more, u)
  {
    assert (flags + tail)[0] == (flags + [c])[0];
    WordEntered(argv, ostr, k, flags + tail);
    FlagsRead(argv, ostr, k, flags, tail);
    ArgumentRead(argv, ostr, k, tail, c, value, next, Plain(ostr, flags));
  }

  /** Calling from the word `k` on until -1 returns these options and leaves the index there. */
  ghost predicate Reads(argv: seq<string>, ostr: string, k: nat, found: seq<Found>, end: nat) {
    Within(argv, Scanner(k, "")) &&
    ScanAll(argv, ostr, Scanner(k, "")).0 == found &&
    ScanAll(argv, ostr, Scanner(k, "")).1.optind == end && ScanAll(argv, ostr, Scanner(k, "")).1.place == ""
  }

  lemma ItemThen(argv: seq<string>, ostr: string, k: nat, item: Item, more: seq<Found>, end: nat)
    requires item.Valid(ostr) && k + |item.Words()| <= |argv|
    requires argv[k..k + |item.Words()|] == item.Words()
    requires Reads(argv, ostr, k + |item.Words()|, more, end)
    ensures Reads(argv, ostr, k, item.Meaning(ostr) + more, end)
  {
    ItemRead(argv, ostr, k, item);
  }

  lemma ClusterRead(argv: seq<string>, ostr: string, k: nat, flags: string)
    requires k < |argv| && argv[k] == "-" + flags && Cluster(flags).Valid(ostr)
    ensures Within(argv, Scanner(k, "")) && Within(argv, Scanner(k + 1, ""))
    ensures var (more, u) := ScanAll(argv, ostr, Scanner(k + 1, ""));
            ScanAll(argv, ostr, Scanner(k, "")) == (Plain(ostr, flags) + more, u)
  {
    var n := |flags| - 1;
    var init, last := flags[..n], flags[n..];
    assert flags == init + last;
    WordEntered(argv, ostr, k, flags);
    FlagsRead(argv, ostr, k, init, last);
    LastFlagRead(argv, ostr, k, flags[n]);
    PlainLast(ostr, flags);
    Associative(Plain(ostr, init), [Single(ostr, flags[n])], ScanAll(argv, ostr, Scanner(k + 1, "")).0);
  }

  lemma Associative(a: seq<Found>, b: seq<Found>, c: seq<Found>)
    ensures a + (b + c) == (a + b) + c
  {
  }

  /** The letter at the end of a word, if it takes no argument. */
  lemma LastFlagRead(argv: seq<string>, ostr: string, k: nat, c: char)
    requires k < |argv| && argv[k] != "" && Flag(ostr, c)
    ensures Within(argv, Scanner(k, [c])) && Within(argv, Scanner(k + 1, ""))
    ensures var (more, u) := ScanAll(argv, ostr, Scanner(k + 1, ""));
            ScanAll(argv, ostr, Scanner(k, [c])) == ([Single(ostr, c)] + more, u)
  {
    CallsGetOn(argv, ostr, Scanner(k, [c]));
    assert Scan(argv, ostr, Scanner(k, [c])) == (Single(ostr, c), Scanner(k + 1, ""));
  }

  lemma {:induction false} PlainLast(ostr: string, flags: string)
    requires flags != ""
    ensures Plain(ostr, flags) == Plain(ostr, flags[..|flags| - 1]) + [Single(ostr, flags[|flags| - 1])]
  {
    if |flags| > 1 {
      PlainLast(ostr, flags[1..]);
      assert flags[1..][..|flags| - 2] == flags[..|flags| - 1][1..];
    }
  }

  /** The letter that takes the argument, read from `tail`. */
  lemma ArgumentRead(argv: seq<string>, ostr: string, k: nat, tail: string, c: char, value: string, next: nat, front: seq<Found>)
    requires k < |argv| && Known(ostr, c) && TakesArgument(ostr, c) && |tail| <= |argv[k]|
    requires (tail == [c] + value && value != "" && next == k + 1) ||
             (tail == [c] && next == k + 2 && k + 1 < |argv| && argv[k + 1] == value)
    ensures Within(argv, Scanner(k, tail)) && Within(argv, Scanner(next, ""))
    ensures var (more, u) := ScanAll(argv, ostr, Scanner(next, ""));
            var (all, v) := ScanAll(argv, ostr, Scanner(k, tail));
            v == u && front + all == (front + [Letter(c, Some(value))]) + more
  {
    var s := Scanner(k, tail);
    CallsGetOn(argv, ostr, s);
    assert tail[1..] == if tail == [c] then "" else value;
    assert Scan(argv, ostr, s) == (Letter(c, Some(value)), Scanner(next, ""));
    var (more, u) := ScanAll(argv, ostr, Scanner(next, ""));
    assert front + ([Letter(c, Some(value))] + more) == (front + [Letter(c, Some(value))]) + more;
  }

  /** The words from `k` on are these options followed by these operands. */
  ghost predicate Written(argv: seq<string>, k: nat, items: seq<Item>, rest: seq<string>) {
    k <= |argv| && argv[k..] == Render(items) + rest
  }

  /** After the words of the first item, the others are written; and whoever reads on from
      there has read the first. */
  lemma FirstItem(argv: seq<string>, ostr: string, k: nat, items: seq<Item>, rest: seq<string>, more: seq<Found>, end: nat)
    returns (next: nat)
    requires Written(argv, k, items, rest) && items != [] && items[0].Valid(ostr)
    ensures Written(argv, next, items[1..], rest) && next + |Render(items[1..])| == k + |Render(items)|
    ensures Reads(argv, ostr, next, Meanings(ostr, items[1..]) + more, end) ==>
              Reads(argv, ostr, k, Meanings(ostr, items) + more, end)
  {
    var words := items[0].Words();
    var tail := Render(items[1..]) + rest;
    assert Render(items) + rest == words + tail;
    SliceOff(argv, k, words, tail);
    next := k + |words|;
    if Reads(argv, ostr, next, Meanings(ostr, items[1..]) + more, end) {
      ItemThen(argv, ostr, k, items[0], Meanings(ostr, items[1..]) + more, end);
      Associative(items[0].Meaning(ostr), Meanings(ostr, items[1..]), more);
    }
  }

  ghost predicate AllValid(ostr: string, items: seq<Item>) {
    forall i :: 0 <= i < |items| ==> items[i].Valid(ostr)
  }

  /** Whatever is read of the words behind them, options written by the rules are read before
      it: the same options in the same order with the same arguments. */
  lemma {:induction false} RenderedComesFirst(argv: seq<string>, ostr: string, k: nat, items: seq<Item>, rest: seq<string>,
                                              next: nat, more: seq<Found>, end: nat)
    requires Written(argv, k, items, rest) && AllValid(ostr, items)
    requires next == k + |Render(items)| && Reads(argv, ostr, next, more, end)
    ensures Reads(argv, ostr, k, Meanings(ostr, items) + more, end)
    decreases |items|
  {
    if items == [] {
      assert [] + more == more;
    } else {
      assert AllValid(ostr, items[1..]) && items[0].Valid(ostr);
      var k' := FirstItem(argv, ostr, k, items, rest, more, end);
      RenderedComesFirst(argv, ostr, k', items[1..], rest, next, more, end);
    }
  }

  lemma RestStarts(argv: seq<string>, k: nat, items: seq<Item>, rest: seq<string>)
    requires Written(argv, k, items, rest)
    ensures k + |Render(items)| <= |argv| && argv[k + |Render(items)|..] == rest
  {
    SliceOff(argv, k, Render(items), rest);
  }

  /** Any list of options written by the rules, with operands behind it, is read back as
      written, and the index is left at the first operand. */
  lemma RenderedIsRead(argv: seq<string>, ostr: string, k: nat, items: seq<Item>, rest: seq<string>)
    requires Written(argv, k, items, rest) && AllValid(ostr, items) && OperandsBegin(ostr, rest)
    ensures Reads(argv, ostr, k, Meanings(ostr, items), k + |Render(items)| + Skipped(rest))
  {
    var next := k + |Render(items)|;
    RestStarts(argv, k, items, rest);
    OperandsStop(argv, ostr, next, rest);
    RenderedComesFirst(argv, ostr, k, items, rest, next, [], next + Skipped(rest));
    assert Meanings(ostr, items) + [] == Meanings(ostr, items);
  }

  /** If the last word ends in a letter that lacks its argument, the last call complains, with
      a colon exactly if the option string begins with one. */
  lemma MissingIsTold(argv: seq<string>, ostr: string, k: nat, items: seq<Item>, flags: string, c: char)
    requires Written(argv, k, items, ["-" + (flags + [c])]) && AllValid(ostr, items)
    requires Flags(ostr, flags) && Known(ostr, c) && TakesArgument(ostr, c) && (flags + [c])[0] != '-'
    ensures Reads(argv, ostr, k, Meanings(ostr, items) + (Plain(ostr, flags) + [NoArgument(c, if ostr[0] == ':' then ':' else '?')]), |argv|)
  {
    var next := k + |Render(items)|;
    RestStarts(argv, k, items, ["-" + (flags + [c])]);
    assert argv[next] == argv[next..][0];
    MissingRead(argv, ostr, next, flags, c);
    RenderedComesFirst(argv, ostr, k, items, ["-" + (flags + [c])], next,
                       Plain(ostr, flags) + [NoArgument(c, if ostr[0] == ':' then ':' else '?')], |argv|);
  }

  lemma MissingRead(argv: seq<string>, ostr: string, k: nat, flags: string, c: char)
    requires k + 1 == |argv| && argv[k] == "-" + (flags + [c]) && (flags + [c])[0] != '-'
    requires Flags(ostr, flags) && Known(ostr, c) && TakesArgument(ostr, c)
    ensures Reads(argv, ostr, k, Plain(ostr, flags) + [NoArgument(c, if ostr[0] == ':' then ':' else '?')], |argv|)
  {
    WordEntered(argv, ostr, k, flags + [c]);
    FlagsRead(argv, ostr, k, flags, [c]);
    var s := Scanner(k, [c]);
    CallsGetOn(argv, ostr, s);
    assert Scan(argv, ostr, s) == (NoArgument(c, if ostr[0] == ':' then ':' else '?'), Scanner(k + 1, ""));
    assert Scan(argv, ostr, Scanner(k + 1, "")).0.End?;
  }

  lemma NothingWritten(argv: seq<string>, ostr: string, k: nat, rest: seq<string>)
    requires Written(argv, k, [], rest) && OperandsBegin(ostr, rest)
    ensures Reads(argv, ostr, k, [], k + Skipped(rest))
  {
    assert Render([]) + rest == rest;
    OperandsStop(argv, ostr, k, rest);
  }

  /** A dash inside a word, unless it is a letter of the program's, is taken for the end; the
      index is left at that word. */
  lemma DashInWordEnds(argv: seq<string>, ostr: string, k: nat, flags: string, rest: string)
    requires k < |argv| && argv[k] == "-" + (flags + ("-" + rest)) && flags != "" && flags[0] != '-'
    requires Flags(ostr, flags) && !Known(ostr, '-')
    ensures Within(argv, Scanner(k, ""))
    ensures ScanAll(argv, ostr, Scanner(k, "")) == (Plain(ostr, flags), Scanner(k, rest))
  {
    var tail := "-" + rest;
    WordEntered(argv, ostr, k, flags + tail);
    FlagsRead(argv, ostr, k, flags, tail);
    assert tail[0] == '-' && tail[1..] == rest;
    assert Scan(argv, ostr, Scanner(k, tail)) == (End, Scanner(k, rest));
    assert Plain(ostr, flags) + [] == Plain(ostr, flags);
  }

  lemma SliceOff(argv: seq<string>, k: nat, words: seq<string>, tail: seq<string>)
    requires k <= |argv| && argv[k..] == words + tail
    ensures k + |words| <= |argv| && argv[k..k + |words|] == words && argv[k + |words|..] == tail
  {
    var n := |words|;
    assert |argv[k..]| == n + |tail|;
    assert argv[k..k + n] == argv[k..][..n];
    assert argv[k + n..] == argv[k..][n..];
  }

  lemma OperandsStop(argv: seq<string>, ostr: string, k: nat, rest: seq<string>)
    requires k <= |argv| && argv[k..] == rest && OperandsBegin(ostr, rest)
    ensures Within(argv, Scanner(k, ""))
    ensures ScanAll(argv, ostr, Scanner(k, "")) == ([], Scanner(k + Skipped(rest), ""))
  {
    if rest != [] {
      assert argv[k] == rest[0];
      assert rest[0] == "-" ==> |rest[0]| == 1 && rest[0][0] == '-' && rest[0][1..] == "";
    }
    assert Scan(argv, ostr, Scanner(k, "")) == (End, Scanner(k + Skipped(rest), ""));
  }
}
