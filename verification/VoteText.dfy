/** The text form of vote messages (`VoteEncodingText.c`), built with `snprintf` and taken apart
    with `strtok`. */
module VoteText {
  import opened Bytes
  import opened Options
  import opened Decimal
  import opened VoteProtocol

  const NUL: char := 0 as char
  const LLONG_MAX := 0x7fff_ffff_ffff_ffff

  /** What the first `snprintf` prints: everything up to the candidate. */
  function Head(v: VoteInfo): string {
    "Voting " + [if v.isInquiry then 'i' else 'v'] + " " + (if v.isResponse then "R" else "") + " " +
    Printed(v.candidate)
  }

  /** What the second one adds. */
  function Tail(v: VoteInfo): string {
    if v.isResponse then " " + Digits(v.count) else ""
  }

  function Text(v: VoteInfo): string {
    Head(v) + Tail(v)
  }

  /** `snprintf`: as much of the text as fits before a NUL; the result is the text's full length. */
  method SnPrintf(buf: array<char>, at: nat, size: nat, text: string) returns (rv: nat)
    requires at + size <= buf.Length
    modifies buf
    ensures rv == |text|
    ensures forall i :: 0 <= i < buf.Length ==>
      buf[i] == if at <= i < at + Min(|text|, size - 1) then text[i - at]
                else if 0 < size && i == at + Min(|text|, size - 1) then NUL else old(buf[i])
  {
    if 0 < size {
      forall i | 0 <= i < Min(|text|, size - 1) {
        buf[at + i] := text[i];
      }
      buf[at + Min(|text|, size - 1)] := NUL;
    }
    return |text|;
  }

  /** `Encode`: the text as far as it fits, and its full length even where it did not fit. For
      a response whose head does not fit, the second `snprintf` is told to write behind the
      buffer, and nothing can be said of what follows: there is no result. */
  method Encode(v: VoteInfo, outBuf: array<char>, bufSize: nat) returns (length: Option<nat>)
    requires bufSize <= outBuf.Length
    modifies outBuf
    ensures length == if v.isResponse && bufSize < |Head(v)| then None else Some(|Text(v)|)
    ensures length.Some? ==> forall i :: 0 <= i < outBuf.Length ==>
      outBuf[i] == if i < Min(length.value, bufSize - 1) then Text(v)[i]
                   else if i == Min(length.value, bufSize - 1) then NUL else old(outBuf[i])
  {
    var size: int := bufSize;
    var bufPtr := SnPrintf(outBuf, 0, size, Head(v));
    size := size - bufPtr;
    if v.isResponse {
      if size < 0 {
        return None;
      }
      var rv := SnPrintf(outBuf, bufPtr, size, Tail(v));
      bufPtr := bufPtr + rv;
    }
    return Some(bufPtr);
  }

  // ---- strtok ----

  function SkipBlanks(s: string): string {
    if s != [] && s[0] == ' ' then SkipBlanks(s[1..]) else s
  }

  function Word(s: string): string {
    if s == [] || s[0] == ' ' then [] else [s[0]] + Word(s[1..])
  }

  /** The next token of a text. */
  function Token(s: string): Option<string> {
    var w := Word(SkipBlanks(s));
    if w == [] then None else Some(w)
  }

  /** What is left of the text behind its next token and the blank that ends it. */
  function Behind(s: string): string {
    var t := SkipBlanks(s);
    t[Min(|Word(t)| + 1, |t|)..]
  }

  lemma {:induction false} SkipBlanksIs(s: string, k: nat)
    requires k <= |s| && (forall i :: 0 <= i < k ==> s[i] == ' ') && (k < |s| ==> s[k] != ' ')
    ensures SkipBlanks(s) == s[k..]
  {
    if 0 < k {
      SkipBlanksIs(s[1..], k - 1);
    }
  }

  lemma {:induction false} WordIs(s: string, k: nat)
    requires k <= |s| && (forall i :: 0 <= i < k ==> s[i] != ' ') && (k < |s| ==> s[k] == ' ')
    ensures Word(s) == s[..k]
  {
    if 0 < k {
      WordIs(s[1..], k - 1);
      assert s[..k] == [s[0]] + s[1..][..k - 1];
    }
  }

  /** The text in a buffer: what precedes the first NUL. */
  function CString(s: seq<char>): string
    requires NUL in s
  {
    if s[0] == NUL then [] else [s[0]] + CString(s[1..])
  }

  lemma {:induction false} CStringIs(s: seq<char>, n: nat)
    requires n < |s| && s[n] == NUL && forall i :: 0 <= i < n ==> s[i] != NUL
    ensures NUL in s && CString(s) == s[..n]
  {
    if 0 < n {
      CStringIs(s[1..], n - 1);
      assert s[..n] == [s[0]] + s[1..][..n - 1];
    }
  }

  /** The buffer `strtok` was started on and the position it remembers. */
  class Tokenizer {
    const buf: array<char>
    var pos: nat
    ghost const end: nat

    ghost predicate Valid()
      reads this, buf
    {
      pos <= end < buf.Length && buf[end] == NUL && forall i :: pos <= i < end ==> buf[i] != NUL
    }

    ghost function Rest(): string
      requires Valid()
      reads this, buf
    {
      buf[pos..end]
    }

    constructor (buf: array<char>)
      requires NUL in buf[..]
      ensures this.buf == buf && Valid() && Rest() == CString(buf[..])
    {
      ghost var n := 0;
      while buf[n] != NUL
        invariant n < buf.Length && NUL in buf[n..]
        invariant forall i :: 0 <= i < n ==> buf[i] != NUL
        decreases buf.Length - n
      {
        n := n + 1;
      }
      CStringIs(buf[..], n);
      this.buf, pos, end := buf, 0, n;
    }

    /** `strspn`: how many blanks come next. */
    method StrSpn() returns (k: nat)
      requires Valid()
      ensures k <= |Rest()| && Rest()[k..] == SkipBlanks(Rest())
      ensures k < |Rest()| ==> Rest()[k] != ' '
    {
      k := 0;
      while buf[pos + k] == ' '
        invariant pos + k <= end && forall i :: 0 <= i < k ==> Rest()[i] == ' '
        decreases end - k
      {
        k := k + 1;
      }
      SkipBlanksIs(Rest(), k);
    }

    /** `strcspn`: how far it is to the next blank or the end. */
    method StrCSpn() returns (k: nat)
      requires Valid()
      ensures k <= |Rest()| && Rest()[..k] == Word(Rest())
      ensures k < |Rest()| ==> Rest()[k] == ' '
    {
      k := 0;
      while buf[pos + k] != ' ' && buf[pos + k] != NUL
        invariant pos + k <= end && forall i :: 0 <= i < k ==> Rest()[i] != ' '
        decreases end - k
      {
        k := k + 1;
      }
      WordIs(Rest(), k);
    }

    /** Overwrites the delimiter behind a token and moves past it. */
    method Cut(k: nat)
      requires Valid() && k <= |Rest()| && (k < |Rest()| ==> Rest()[k] == ' ')
      modifies this, buf
      ensures Valid() && Rest() == old(Rest())[Min(k + 1, |old(Rest())|)..]
    {
      pos := pos + k;
      if buf[pos] == ' ' {
        buf[pos] := NUL;
        pos := pos + 1;
      }
    }

    method Strtok() returns (token: Option<string>)
      requires Valid()
      modifies this, buf
      ensures Valid()
      ensures token == Token(old(Rest()))
      ensures Rest() == Behind(old(Rest()))
    {
      ghost var s := Rest();
      var k := StrSpn();
      pos := pos + k;
      ghost var t := Rest();
      assert t == s[k..];
      k := StrCSpn();
      if k == 0 {
        return None;
      }
      assert buf[pos..pos + k] == t[..k];
      token := Some(buf[pos..pos + k]);
      Cut(k);
    }
  }

  // ---- Decode ----

  /** `atoi`: zero if there is no number. */
  function Atoi(s: string): int {
    var r := Scan(SkipSpace(s));
    if r.None? then 0 else r.value.0
  }

  /** `strtoll`, stored in an unsigned 64-bit field: what is too large or too small is clipped,
      and negative numbers wrap. */
  function Count(s: string): u64 {
    var n := Atoi(s);
    if LLONG_MAX < n then LLONG_MAX
    else if 0 <= n then n
    else LONGS + if n < -LLONG_MAX - 1 then -LLONG_MAX - 1 else n
  }

  /** What a text means, stage by stage. */
  function Parse(s: string): Option<VoteInfo> {
    if Token(s) == Some("Voting") then ParseKind(Behind(s)) else None
  }

  function ParseKind(s: string): Option<VoteInfo> {
    if Token(s) == Some("v") then ParseRest(Behind(s), false)
    else if Token(s) == Some("i") then ParseRest(Behind(s), true)
    else None
  }

  function ParseRest(s: string, isInquiry: bool): Option<VoteInfo> {
    if Token(s) == None then None
    else if Token(s) != Some("R") then Numbers(Token(s).value, Behind(s), isInquiry, false)
    else if Token(Behind(s)) == None then None
    else Numbers(Token(Behind(s)).value, Behind(Behind(s)), isInquiry, true)
  }

  function Numbers(candidate: string, s: string, isInquiry: bool, isResponse: bool): Option<VoteInfo> {
    if !isResponse then Some(VoteInfo(0, Atoi(candidate), isInquiry, false))
    else if Token(s) == None then None
    else Some(VoteInfo(Count(Token(s).value), Atoi(candidate), isInquiry, true))
  }

  /** The end of `Decode`: the candidate, and the count if there should be one. */
  method DecodeNumbers(candidate: string, tokens: Tokenizer, v: VoteStruct) returns (ok: bool)
    requires tokens.Valid()
    modifies tokens, tokens.buf, v
    ensures (if ok then Some(v.Info()) else None) == old(Numbers(candidate, tokens.Rest(), v.isInquiry, v.isResponse))
  {
    v.candidate := Atoi(candidate);
    if v.isResponse {
      var token := tokens.Strtok();
      if token == None {
        return false;
      }
      v.count := Count(token.value);
    } else {
      v.count := 0;
    }
    return true;
  }

  /** `Decode`. It takes the NUL for the end of the message, not the size it is given. */
  method Decode(inBuf: array<char>, mSize: nat, v: VoteStruct) returns (ok: bool)
    requires NUL in inBuf[..]
    modifies inBuf, v
    ensures (if ok then Some(v.Info()) else None) == Parse(CString(old(inBuf[..])))
  {
    var tokens := new Tokenizer(inBuf);
    var token := tokens.Strtok();
    if token == None || token.value != "Voting" {
      return false;
    }
    token := tokens.Strtok();
    if token == None {
      return false;
    }
    if token.value == "v" {
      v.isInquiry := false;
    } else if token.value == "i" {
      v.isInquiry := true;
    } else {
      return false;
    }
    token := tokens.Strtok();
    if token == None {
      return false;
    }
    if token.value == "R" {
      v.isResponse := true;
      token := tokens.Strtok();
      if token == None {
        return false;
      }
    } else {
      v.isResponse := false;
    }
    ok := DecodeNumbers(token.value, tokens, v);
  }

  // ---- and back ----

  predicate IsWord(w: string) {
    w != [] && forall i :: 0 <= i < |w| ==> w[i] != ' ' && w[i] != NUL
  }

  lemma FirstWord(w: string, rest: string)
    requires IsWord(w)
    ensures Token(w + " " + rest) == Some(w) && Behind(w + " " + rest) == rest
  {
    var s := w + " " + rest;
    SkipBlanksIs(s, 0);
    WordIs(s, |w|);
    assert s[..|w|] == w && s[|w| + 1..] == rest;
  }

  lemma OnlyWord(w: string)
    requires IsWord(w)
    ensures Token(w) == Some(w)
    ensures Token(" " + w) == Some(w)
  {
    SkipBlanksIs(w, 0);
    SkipBlanksIs(" " + w, 1);
    assert (" " + w)[1..] == w;
    WordIs(w, |w|);
    assert w[..|w|] == w;
  }

  lemma PrintedIsWord(n: int)
    ensures IsWord(Printed(n)) && Printed(n)[0] != 'R' && Atoi(Printed(n)) == n
  {
    PrintedNotSpace(n);
    ScanPrinted(n, []);
    assert Printed(n) + [] == Printed(n);
    var d := Digits(if n < 0 then -n else n);
    assert forall i :: 0 <= i < |d| ==> IsDigit(d[i]);
  }

  // ---- which texts are read ----

  lemma {:induction false} SkipShortens(s: string)
    ensures |SkipBlanks(s)| <= |s| && |Word(s)| <= |s|
  {
    if s != [] {
      SkipShortens(s[1..]);
    }
  }

  lemma BehindShortens(s: string)
    ensures Token(s).Some? ==> |Behind(s)| < |s|
  {
    SkipShortens(s);
    SkipShortens(SkipBlanks(s));
  }

  /** All the tokens of a text. */
  function Tokens(s: string): seq<string>
    decreases |s|
  {
    BehindShortens(s);
    if Token(s).None? then [] else [Token(s).value] + Tokens(Behind(s))
  }

  /** Words with a blank behind each. */
  function Blanked(words: seq<string>): string {
    if words == [] then "" else words[0] + " " + Blanked(words[1..])
  }

  /** Tokens are what stands between blanks. */
  lemma {:induction false} BlankedIsTokens(words: seq<string>)
    requires forall i :: 0 <= i < |words| ==> IsWord(words[i])
    ensures Tokens(Blanked(words)) == words
  {
    if words != [] {
      FirstWord(words[0], Blanked(words[1..]));
      BlankedIsTokens(words[1..]);
    }
  }

  /** A text is read exactly if its tokens are the magic word, one of the two kinds, and a
      candidate, or the response flag, a candidate and a count; what follows is not looked at. */
  lemma TokensDecide(s: string)
    ensures var t := Tokens(s);
            Parse(s) ==
            if |t| < 3 || t[0] != "Voting" || (t[1] != "v" && t[1] != "i") then None
            else if t[2] != "R" then Some(VoteInfo(0, Atoi(t[2]), t[1] == "i", false))
            else if |t| < 5 then None
            else Some(VoteInfo(Count(t[4]), Atoi(t[3]), t[1] == "i", true))
  {
    if Token(s).Some? {
      var s1 := Behind(s);
      assert Tokens(s) == [Token(s).value] + Tokens(s1);
      if Token(s1).Some? {
        var s2 := Behind(s1);
        assert Tokens(s1) == [Token(s1).value] + Tokens(s2);
        RestTokens(s2, Token(s1) == Some("i"));
      }
    }
  }

  lemma RestTokens(s: string, isInquiry: bool)
    ensures var t := Tokens(s);
            ParseRest(s, isInquiry) ==
            if |t| < 1 then None
            else if t[0] != "R" then Some(VoteInfo(0, Atoi(t[0]), isInquiry, false))
            else if |t| < 3 then None
            else Some(VoteInfo(Count(t[2]), Atoi(t[1]), isInquiry, true))
  {
    if Token(s).Some? {
      var s1 := Behind(s);
      assert Tokens(s) == [Token(s).value] + Tokens(s1);
      if Token(s1).Some? {
        assert Tokens(s1) == [Token(s1).value] + Tokens(Behind(s1));
      }
    }
  }

  /** A count is clipped to 64 bits with a sign, and stored modulo 2^64. */
  lemma CountIsClipped(n: int)
    ensures Count(Printed(n)) % LONGS ==
            (if n < -LLONG_MAX - 1 then -LLONG_MAX - 1 else if LLONG_MAX < n then LLONG_MAX else n) % LONGS
  {
    PrintedIsWord(n);
  }

  /** The two spaces of a request are one delimiter. */
  lemma ParseRequest(candidate: string, isInquiry: bool)
    requires IsWord(candidate) && candidate[0] != 'R'
    ensures ParseRest(" " + candidate, isInquiry) == Some(VoteInfo(0, Atoi(candidate), isInquiry, false))
  {
    OnlyWord(candidate);
  }

  lemma ParseReply(candidate: string, count: string, isInquiry: bool)
    requires IsWord(candidate) && IsWord(count)
    ensures ParseRest("R " + (candidate + " " + count), isInquiry) ==
            Some(VoteInfo(Count(count), Atoi(candidate), isInquiry, true))
  {
    FirstWord("R", candidate + " " + count);
    assert "R " + (candidate + " " + count) == "R" + " " + (candidate + " " + count);
    FirstWord(candidate, count);
    OnlyWord(count);
  }

  lemma ParseStart(isInquiry: bool, rest: string)
    ensures Parse("Voting" + " " + ([if isInquiry then 'i' else 'v'] + " " + rest)) == ParseRest(rest, isInquiry)
  {
    var kind := [if isInquiry then 'i' else 'v'];
    FirstWord("Voting", kind + " " + rest);
    FirstWord(kind, rest);
  }

  /** The text of a request has an empty response field, hence two spaces. */
  lemma RequestText(v: VoteInfo)
    requires !v.isResponse
    ensures Text(v) == "Voting" + " " + ([if v.isInquiry then 'i' else 'v'] + " " + (" " + Printed(v.candidate)))
  {
    assert Text(v) == Head(v);
  }

  lemma ReplyText(v: VoteInfo)
    requires v.isResponse
    ensures Text(v) == "Voting" + " " + ([if v.isInquiry then 'i' else 'v'] + " " +
                       ("R " + (Printed(v.candidate) + " " + Digits(v.count))))
  {
    Reassociate([if v.isInquiry then 'i' else 'v'], Printed(v.candidate), Digits(v.count));
  }

  lemma Reassociate(kind: string, candidate: string, count: string)
    ensures "Voting " + kind + " " + "R" + " " + candidate + (" " + count) ==
            "Voting" + " " + (kind + " " + ("R " + (candidate + " " + count)))
  {
  }

  lemma ParseRequestText(v: VoteInfo)
    requires !v.isResponse
    ensures Parse(Text(v)) == Some(VoteInfo(0, v.candidate, v.isInquiry, false))
  {
    RequestText(v);
    PrintedIsWord(v.candidate);
    ParseStart(v.isInquiry, " " + Printed(v.candidate));
    ParseRequest(Printed(v.candidate), v.isInquiry);
  }

  lemma ParseReplyText(v: VoteInfo)
    requires v.isResponse
    ensures Parse(Text(v)) == Some(VoteInfo(Min(v.count, LLONG_MAX), v.candidate, v.isInquiry, true))
  {
    ReplyText(v);
    PrintedIsWord(v.candidate);
    PrintedIsWord(v.count);
    ParseStart(v.isInquiry, "R " + (Printed(v.candidate) + " " + Digits(v.count)));
    ParseReply(Printed(v.candidate), Digits(v.count), v.isInquiry);
  }

  /** What was printed is read again, but for a count that `strtoll` clips, and but for the
      count of a request, which is not sent. */
  lemma ParseText(v: VoteInfo)
    ensures Parse(Text(v)) ==
            Some(VoteInfo(if v.isResponse then Min(v.count, LLONG_MAX) else 0, v.candidate, v.isInquiry, v.isResponse))
  {
    if v.isResponse {
      ParseReplyText(v);
    } else {
      ParseRequestText(v);
    }
  }

  lemma TextHasNoNul(v: VoteInfo)
    ensures forall i :: 0 <= i < |Text(v)| ==> Text(v)[i] != NUL
  {
    PrintedIsWord(v.candidate);
    PrintedIsWord(v.count);
  }

  /** A buffer in which `Encode` had room for the text and the NUL is decoded to what was
      encoded exactly if a request carries no count and a count fits a signed 64-bit number. */
  lemma TextRoundTrip(v: VoteInfo, buf: seq<char>)
    requires |Text(v)| < |buf| && buf[..|Text(v)|] == Text(v) && buf[|Text(v)|] == NUL
    ensures NUL in buf && Parse(CString(buf)).Some?
    ensures Parse(CString(buf)).value == v <==> if v.isResponse then v.count <= LLONG_MAX else v.count == 0
  {
    TextHasNoNul(v);
    assert forall i :: 0 <= i < |Text(v)| ==> buf[i] == buf[..|Text(v)|][i];
    CStringIs(buf, |Text(v)|);
    ParseText(v);
  }
}
