/**
 The parser (src/astra/protocol/resp/resp_parser.cpp) answers alike to input that is incomplete and to
 input that is malformed. This module tells the two apart: a malformed stream is one that no further
 bytes can turn into a value.
 */
module RespMalformed {
  import opened Common
  import opened Decimal
  import opened RespParser

  predicate BadLength(line: string) { ParseInt(line).None? || ParseInt(line).value < -1 }

  /** A first line that no value of the type has. */
  predicate BadLine(atod: Atod, kind: char, line: string) {
    match kind
    case '+' => false
    case '-' => false
    case ':' => ParseInt(line).None?
    case '$' => BadLength(line)
    case '*' => BadLength(line)
    case '_' => line != ""
    case '#' => line != "t" && line != "f"
    case ',' => atod(line).None?
    case _ => true
  }

  /** The text after the type byte, without a line end so far, cannot become a good first line. */
  ghost predicate BadStart(atod: Atod, kind: char, text: string) {
    match kind
    case '+' => false
    case '-' => false
    case ':' => Magnitude(text) != "" && ParseInt(text).None?
    case '$' => Magnitude(text) != "" && BadLength(text)
    case '*' => Magnitude(text) != "" && BadLength(text)
    case '_' => text != "" && text != "\r"
    case '#' => text != "" && text != "t" && text != "f" && text != "t\r" && text != "f\r"
    case ',' => forall e :: ReadLine(text + e).Some? ==> atod(ReadLine(text + e).value.value).None?
    case _ => true
  }

  /** A wrong type byte, a bad first line, or an array with a malformed element. */
  ghost predicate Malformed(atod: Atod, d: string)
    decreases |d|, 0
  {
    && d != ""
    && match ReadLine(d[1..])
       case None => BadStart(atod, d[0], d[1..])
       case Some(Parsed(line, rest)) =>
         BadLine(atod, d[0], line)
         || (d[0] == '*' && ParseInt(line).value > 0 && MalformedMany(atod, rest, ParseInt(line).value))
  }

  /** The first element that does not parse is malformed. */
  ghost predicate MalformedMany(atod: Atod, d: string, n: nat)
    decreases |d|, 1
  {
    && n > 0
    && match Parse(atod, d)
       case None => Malformed(atod, d)
       case Some(p) => MalformedMany(atod, p.rest, n - 1)
  }

  // ----- Numbers -----

  lemma MagnitudeExtends(text: string, more: string)
    requires text != ""
    ensures Magnitude(text + more) == Magnitude(text) + more
  {
  }

  /** What a bad number is followed by does not make it good. */
  lemma NumberStaysBad(text: string, more: string)
    requires Magnitude(text) != ""
    ensures ParseInt(text).None? ==> ParseInt(text + more).None?
    ensures BadLength(text) ==> BadLength(text + more)
  {
    var body := Magnitude(text);
    var k, m := RunLength(body), RunLength(body + more);
    MagnitudeExtends(text, more);
    if k < |body| {
      assert (body + more)[..k] == body[..k];
      RunLengthIs(body + more, k);
    } else {
      RunGrows(body, more);
      assert (body + more)[..m][..|body|] == body && body[..k] == body;
      ValueMonotone((body + more)[..m], |body|);
    }
  }

  lemma {:induction false} RunGrows(body: string, more: string)
    requires RunLength(body) == |body|
    ensures RunLength(body + more) >= |body|
  {
    if body != "" {
      assert (body + more)[1..] == body[1..] + more;
      RunGrows(body[1..], more);
    }
  }

  lemma ReturnEndsNumber(line: string)
    ensures ParseInt(line + "\r") == ParseInt(line)
  {
    if line != "" {
      var body := Magnitude(line);
      MagnitudeExtends(line, "\r");
      assert (body + "\r")[..RunLength(body)] == body[..RunLength(body)];
      RunLengthIs(body + "\r", RunLength(body));
    }
  }

  // ----- Lines -----

  /** The line that is completed is the text so far and more, or the text up to a final CR. */
  lemma LineOfExtension(text: string, e: string)
    requires ReadLine(text).None? && ReadLine(text + e).Some?
    ensures var p := ReadLine(text + e).value;
      |p.rest| <= |e| && (text <= p.value || text == p.value + "\r")
  {
    var i := FindCrlf(text + e, 0).value;
    assert !CrlfAt(text, i);
    if i >= |text| {
      assert (text + e)[..i][..|text|] == text;
    } else {
      assert text == (text + e)[..i] + "\r";
    }
  }

  /** Ending the line there: what was read of it stays, and nothing is left over. */
  lemma CutAfterLine(d: string)
    requires ReadLine(d).Some?
    ensures ReadLine(d[..|d| - |ReadLine(d).value.rest|]) == Some(Parsed(ReadLine(d).value.value, ""))
  {
    var i := FindCrlf(d, 0).value;
    var cut := d[..i + 2];
    forall j | 0 <= j < i ensures !CrlfAt(cut, j) {
      assert !CrlfAt(d, j);
    }
    FindCrlfIs(cut, 0, i);
    assert cut[..i] == d[..i] && cut[i + 2..] == "";
  }

  lemma EndLine(text: string)
    requires ReadLine(text).None?
    ensures ReadLine(text + "\r\n") == Some(Parsed(text, ""))
  {
    var d := text + "\r\n";
    forall j | 0 <= j < |text| ensures !CrlfAt(d, j) {
      assert !CrlfAt(text, j);
    }
    FindCrlfIs(d, 0, |text|);
    assert d[..|text|] == text && d[|text| + 2..] == "";
  }

  lemma EndAfterReturn(text: string)
    requires ReadLine(text + "\r").None?
    ensures ReadLine(text + "\r" + "\n") == Some(Parsed(text, ""))
  {
    var d := text + "\r" + "\n";
    forall j | 0 <= j < |text| ensures !CrlfAt(d, j) {
      assert !CrlfAt(text + "\r", j);
    }
    FindCrlfIs(d, 0, |text|);
    assert d[..|text|] == text && d[|text| + 2..] == "";
  }

  /** A bad start only completes to bad lines. */
  lemma BadStartStays(atod: Atod, kind: char, text: string, e: string)
    requires ReadLine(text).None? && BadStart(atod, kind, text) && ReadLine(text + e).Some?
    ensures BadLine(atod, kind, ReadLine(text + e).value.value)
  {
    var line := ReadLine(text + e).value.value;
    LineOfExtension(text, e);
    if kind == ':' || kind == '$' || kind == '*' {
      if text <= line {
        NumberStaysBad(text, line[|text|..]);
        assert text + line[|text|..] == line;
      } else {
        ReturnEndsNumber(line);
      }
    }
  }

  lemma NoLineYet(text: string, c: char)
    requires ReadLine(text).None? && c != '\n' && c != '\r'
    ensures ReadLine(text + [c]).None?
  {
    forall j | 0 <= j ensures !CrlfAt(text + [c], j) {
      assert !CrlfAt(text, j);
    }
  }

  /** The text so far and `e` are a good first line, and nothing more. */
  ghost predicate Finishes(atod: Atod, kind: char, text: string, e: string) {
    var r := ReadLine(text + e);
    r.Some? && r.value.rest == "" && !BadLine(atod, kind, r.value.value)
  }

  lemma FinishDouble(atod: Atod, text: string) returns (e: string)
    requires ReadLine(text).None? && !BadStart(atod, ',', text)
    ensures Finishes(atod, ',', text, e)
  {
    var more :| ReadLine(text + more).Some? && atod(ReadLine(text + more).value.value).Some?;
    var rest := ReadLine(text + more).value.rest;
    LineOfExtension(text, more);
    CutAfterLine(text + more);
    e := more[..|more| - |rest|];
    assert (text + more)[..|text + more| - |rest|] == text + e;
  }

  lemma FinishNumber(atod: Atod, kind: char, text: string) returns (e: string)
    requires ReadLine(text).None? && !BadStart(atod, kind, text) && (kind == ':' || kind == '$' || kind == '*')
    ensures Finishes(atod, kind, text, e)
  {
    if Magnitude(text) == "" {
      FirstDigit(text);
      NoLineYet(text, '1');
      EndLine(text + "1");
      e := "1\r\n";
      assert text + e == text + "1" + "\r\n";
    } else {
      EndLine(text);
      e := "\r\n";
    }
  }

  lemma FinishNull(atod: Atod, text: string) returns (e: string)
    requires ReadLine(text).None? && !BadStart(atod, '_', text)
    ensures Finishes(atod, '_', text, e)
  {
    if text == "" {
      EndLine(text);
      e := "\r\n";
    } else {
      assert text == "" + "\r";
      EndAfterReturn("");
      e := "\n";
    }
  }

  lemma FinishBoolean(atod: Atod, text: string) returns (e: string)
    requires ReadLine(text).None? && !BadStart(atod, '#', text)
    ensures Finishes(atod, '#', text, e)
  {
    if text == "" {
      NoLineYet(text, 't');
      EndLine(text + ['t']);
      e := "t\r\n";
      assert text + e == text + ['t'] + "\r\n";
    } else if |text| == 1 {
      EndLine(text);
      e := "\r\n";
    } else {
      var line := text[..1];
      assert text == line + "\r";
      EndAfterReturn(line);
      e := "\n";
    }
  }

  /** Any other start can be completed to a good line. */
  lemma FinishLine(atod: Atod, kind: char, text: string) returns (e: string)
    requires ReadLine(text).None? && !BadStart(atod, kind, text)
    ensures Finishes(atod, kind, text, e)
  {
    if kind == ',' {
      e := FinishDouble(atod, text);
    } else if kind == ':' || kind == '$' || kind == '*' {
      e := FinishNumber(atod, kind, text);
    } else if kind == '_' {
      e := FinishNull(atod, text);
    } else if kind == '#' {
      e := FinishBoolean(atod, text);
    } else {
      EndLine(text);
      e := "\r\n";
    }
  }

  lemma FirstDigit(text: string)
    requires Magnitude(text) == ""
    ensures ParseInt(text + "1").Some? && ParseInt(text + "1").value >= -1
  {
    var body := Magnitude(text + "1");
    assert body == "1";
    RunLengthIs("1", 1);
    assert "1"[..1] == "1" && "1"[..0] == "";
    assert Value("1") == 1;
  }

  // ----- Malformed streams never parse -----

  /** The parse takes everything. */
  predicate Whole<T>(r: Option<Parsed<T>>) { r.Some? && r.value.rest == "" }

  lemma ParseUnfolds(atod: Atod, d: string)
    requires d != "" && ReadLine(d[1..]).Some?
    ensures Parse(atod, d) == ParseTyped(atod, d, ReadLine(d[1..]).value.value, ReadLine(d[1..]).value.rest)
  {
  }

  lemma BadLineFails(atod: Atod, d: string, line: string, rest: string)
    requires d != "" && |rest| < |d| && BadLine(atod, d[0], line)
    ensures ParseTyped(atod, d, line, rest).None?
  {
  }

  lemma ArrayUnfolds(atod: Atod, d: string, line: string, rest: string)
    requires d != "" && |rest| < |d| && d[0] == '*' && !BadLength(line) && ParseInt(line).value >= 0
    ensures var r := ParseMany(atod, rest, ParseInt(line).value);
      && (ParseTyped(atod, d, line, rest).None? <==> r.None?)
      && (Whole(ParseTyped(atod, d, line, rest)) <==> Whole(r))
  {
  }

  lemma ManyUnfolds(atod: Atod, d: string, n: nat)
    requires n > 0 && Parse(atod, d).Some?
    ensures var r := ParseMany(atod, Parse(atod, d).value.rest, n - 1);
      && (ParseMany(atod, d, n).None? <==> r.None?)
      && (Whole(ParseMany(atod, d, n)) <==> Whole(r))
  {
  }

  lemma {:induction false} MalformedNeverParses(atod: Atod, d: string, e: string)
    requires Malformed(atod, d)
    ensures Parse(atod, d + e).None?
    decreases |d|, 0
  {
    assert (d + e)[1..] == d[1..] + e;
    if ReadLine(d[1..]).None? {
      if ReadLine(d[1..] + e).Some? {
        BadStartStays(atod, d[0], d[1..], e);
        ParseUnfolds(atod, d + e);
        BadLineFails(atod, d + e, ReadLine(d[1..] + e).value.value, ReadLine(d[1..] + e).value.rest);
      }
    } else {
      ReadLineExtends(d[1..], e);
      var p := ReadLine(d[1..]).value;
      ParseUnfolds(atod, d + e);
      if BadLine(atod, d[0], p.value) {
        BadLineFails(atod, d + e, p.value, p.rest + e);
      } else {
        ManyNeverParse(atod, p.rest, ParseInt(p.value).value, e);
        ArrayUnfolds(atod, d + e, p.value, p.rest + e);
      }
    }
  }

  lemma {:induction false} ManyNeverParse(atod: Atod, d: string, n: nat, e: string)
    requires MalformedMany(atod, d, n)
    ensures ParseMany(atod, d + e, n).None?
    decreases |d|, 1
  {
    if Parse(atod, d).Some? {
      ParseExtends(atod, d, e);
      ManyNeverParse(atod, Parse(atod, d).value.rest, n - 1, e);
      ManyUnfolds(atod, d + e, n);
    } else {
      MalformedNeverParses(atod, d, e);
    }
  }

  // ----- All others can be completed -----

  /** Empty simple strings, to fill up an array. */
  function Fillers(n: nat): string { if n == 0 then "" else "+\r\n" + Fillers(n - 1) }

  lemma FillerParses(atod: Atod, t: string)
    ensures Parse(atod, "+\r\n" + t) == Some(Parsed(Simple(""), t))
  {
    var d := "+\r\n" + t;
    assert d[1..] == "\r\n" + t;
    FindCrlfIs(d[1..], 0, 0);
    assert d[1..][..0] == "" && d[1..][2..] == t;
  }

  lemma {:induction false} FillersParse(atod: Atod, n: nat)
    ensures Whole(ParseMany(atod, Fillers(n), n))
  {
    if n > 0 {
      FillerParses(atod, Fillers(n - 1));
      FillersParse(atod, n - 1);
    }
  }

  /** The parse after a good first line can be completed. */
  lemma {:induction false} CompleteTyped(atod: Atod, d: string, line: string, rest: string) returns (e: string)
    requires d != "" && |rest| < |d| && !BadLine(atod, d[0], line)
    requires ParseTyped(atod, d, line, rest).None? || rest == ""
    requires d[0] == '*' && ParseInt(line).value > 0 ==> !MalformedMany(atod, rest, ParseInt(line).value)
    ensures Whole(ParseTyped(atod, d + e, line, rest + e))
    decreases |rest|, 2
  {
    if d[0] == '$' {
      e := CompleteBulk(atod, d, line, rest);
    } else if d[0] == '*' && ParseInt(line).value >= 0 {
      var n := ParseInt(line).value;
      ArrayUnfolds(atod, d, line, rest);
      if ParseMany(atod, rest, n).None? {
        e := CompleteMany(atod, rest, n);
        ArrayUnfolds(atod, d + e, line, rest + e);
      } else {
        e := "";
        assert rest + e == rest && d + e == d;
      }
    } else {
      e := "";
      assert rest + e == rest && d + e == d;
    }
  }

  lemma CompleteBulk(atod: Atod, d: string, line: string, rest: string) returns (e: string)
    requires d != "" && |rest| < |d| && d[0] == '$' && !BadLength(line)
    requires ParseTyped(atod, d, line, rest).None? || rest == ""
    ensures Whole(ParseTyped(atod, d + e, line, rest + e))
  {
    var n := ParseInt(line).value;
    e := if n < 0 then "" else seq(n + 2 - |rest|, _ => 'x');
    assert n < 0 ==> rest + e == rest;
    assert ParseTyped(atod, d + e, line, rest + e) == ParseBulk(line, rest + e);
  }

  lemma FirstCompleted(atod: Atod, whole: string, first: string, n: nat, fill: string)
    requires n > 0 && whole == first + fill && Whole(Parse(atod, first)) && Whole(ParseMany(atod, fill, n - 1))
    ensures Whole(ParseMany(atod, whole, n))
  {
    ParseExtends(atod, first, fill);
    NothingBefore(fill);
    ManyUnfolds(atod, whole, n);
  }

  lemma NothingBefore(s: string)
    ensures "" + s == s
  {
  }

  lemma Regroup(a: string, b: string, c: string)
    ensures a + (b + c) == a + b + c
    ensures a != "" ==> (a + (b + c))[1..] == a[1..] + b + c
  {
  }

  lemma LaterCompleted(atod: Atod, d: string, n: nat, e: string)
    requires n > 0 && Parse(atod, d).Some? && Whole(ParseMany(atod, Parse(atod, d).value.rest + e, n - 1))
    ensures Whole(ParseMany(atod, d + e, n))
  {
    ParseExtends(atod, d, e);
    ManyUnfolds(atod, d + e, n);
  }

  lemma {:induction false} CompleteMany(atod: Atod, d: string, n: nat) returns (e: string)
    requires ParseMany(atod, d, n).None? && !MalformedMany(atod, d, n)
    ensures Whole(ParseMany(atod, d + e, n))
    decreases |d|, 1
  {
    if Parse(atod, d).Some? {
      ManyUnfolds(atod, d, n);
      e := CompleteMany(atod, Parse(atod, d).value.rest, n - 1);
      LaterCompleted(atod, d, n, e);
    } else {
      var first := Complete(atod, d);
      e := first + Fillers(n - 1);
      FillersParse(atod, n - 1);
      Regroup(d, first, Fillers(n - 1));
      FirstCompleted(atod, d + e, d + first, n, Fillers(n - 1));
    }
  }

  lemma {:induction false} Complete(atod: Atod, d: string) returns (e: string)
    requires Parse(atod, d).None? && !Malformed(atod, d)
    ensures Whole(Parse(atod, d + e))
    decreases |d|, 0
  {
    if d == "" {
      FillerParses(atod, "");
      e := "+\r\n";
      assert d + e == e + "";
    } else if ReadLine(d[1..]).Some? {
      var p := ReadLine(d[1..]).value;
      ParseUnfolds(atod, d);
      e := CompleteTyped(atod, d, p.value, p.rest);
      assert (d + e)[1..] == d[1..] + e;
      ReadLineExtends(d[1..], e);
      ParseUnfolds(atod, d + e);
    } else {
      var start := FinishLine(atod, d[0], d[1..]);
      e := CompleteStarted(atod, d, start);
    }
  }

  lemma {:induction false} CompleteStarted(atod: Atod, d: string, start: string) returns (e: string)
    requires d != "" && Finishes(atod, d[0], d[1..], start)
    ensures Whole(Parse(atod, d + e))
    decreases 0, 3
  {
    var line := ReadLine(d[1..] + start).value.value;
    NothingIsMalformed(atod);
    var more := CompleteTyped(atod, d + start, line, "");
    e := start + more;
    Regroup(d, start, more);
    NothingBefore(more);
    StartedParses(atod, d + e, d[1..] + start, line, more);
  }

  lemma NothingIsMalformed(atod: Atod)
    ensures forall n: nat :: !MalformedMany(atod, "", n)
  {
  }

  lemma StartedParses(atod: Atod, whole: string, text: string, line: string, more: string)
    requires whole != "" && whole[1..] == text + more && ReadLine(text) == Some(Parsed(line, ""))
    requires Whole(ParseTyped(atod, whole, line, more))
    ensures Whole(Parse(atod, whole))
  {
    ReadLineExtends(text, more);
    NothingBefore(more);
    ParseUnfolds(atod, whole);
  }

  /** A stream is malformed if and only if no bytes that may still follow make it parse. */
  lemma MalformedExactly(atod: Atod, d: string)
    ensures Malformed(atod, d) <==> forall e :: Parse(atod, d + e).None?
  {
    if Malformed(atod, d) {
      forall e ensures Parse(atod, d + e).None? {
        MalformedNeverParses(atod, d, e);
      }
    } else if Parse(atod, d).None? {
      var e := Complete(atod, d);
      assert Parse(atod, d + e).Some?;
    } else {
      assert Parse(atod, d + "").Some? by { assert d + "" == d; }
    }
  }

  /** A number that is none, with its line complete. */
  lemma NoNumberIsMalformed(atod: Atod)
    ensures Malformed(atod, ":x\r\n")
  {
    var d := ":x\r\n";
    assert d[1..] == "x" + "\r\n" && ReadLine("x").None?;
    EndLine("x");
    assert ParseInt("x").None?;
  }
}
