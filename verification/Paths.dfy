/**
 Paths into a YAML document: dotted names, list indices and quoted names in brackets.

 The parser is a small automaton over the characters.  It is proved to undo every way of
 writing a list of segments, and resolving is proved to respect concatenation.
 */
module Paths {
  import opened Basics

  datatype Segment = Name(name: string) | Index(index: nat)

  datatype Problem = EmptyPath | EmptyBracket | Unclosed | ExpectedList | OutOfRange | ExpectedMapping | MissingKey

  datatype Result<T> = Ok(value: T) | Err(problem: Problem)

  // ---------------------------------------------------------------- text

  predicate IsDigit(c: char) { '0' <= c <= '9' }

  predicate IsQuote(c: char) { c == '\'' || c == '"' }

  predicate AllDigits(s: string) { s != "" && forall i | 0 <= i < |s| :: IsDigit(s[i]) }

  function StripLeft(s: string): string {
    if s != "" && IsSpace(s[0]) then StripLeft(s[1..]) else s
  }

  function StripRight(s: string): string {
    if s != "" && IsSpace(s[|s| - 1]) then StripRight(s[..|s| - 1]) else s
  }

  function Strip(s: string): string { StripRight(StripLeft(s)) }

  function Number(s: string): nat {
    if s == "" then 0
    else Number(s[..|s| - 1]) * 10 + if IsDigit(s[|s| - 1]) then s[|s| - 1] as nat - '0' as nat else 0
  }

  function Decimal(n: nat): (s: string)
    ensures AllDigits(s)
  {
    (if n < 10 then "" else Decimal(n / 10)) + ["0123456789"[n % 10]]
  }

  lemma {:induction false} NumberOfDecimal(n: nat)
    ensures Number(Decimal(n)) == n
  {
    var s := Decimal(n);
    var m := |s| - 1;
    assert s[m] as nat - '0' as nat == n % 10;
    if n < 10 {
      assert s[..m] == "";
    } else {
      NumberOfDecimal(n / 10);
      assert s[..m] == Decimal(n / 10);
    }
  }

  lemma DigitsAreTrimmed(s: string)
    requires AllDigits(s)
    ensures Strip(s) == s
  {
    assert IsDigit(s[0]) && IsDigit(s[|s| - 1]);
  }

  // ---------------------------------------------------------------- the automaton

  /** `quote` is the open quote, if any; only meaningful inside a bracket. */
  datatype State = State(segments: seq<Segment>, token: string, bracket: string, inBracket: bool, quote: Option<char>)

  const START := State([], "", "", false, None)

  function Flush(s: State): State {
    if s.token == "" then s else s.(segments := s.segments + [Name(s.token)], token := "")
  }

  function Bracketed(text: string): Segment {
    if AllDigits(text) then Index(Number(text)) else Name(text)
  }

  function Next(s: State, c: char): Result<State> {
    if s.inBracket then
      if s.quote.Some? then
        Ok(if c == s.quote.value then s.(quote := None) else s.(bracket := s.bracket + [c]))
      else if IsQuote(c) then Ok(s.(quote := Some(c)))
      else if c == ']' then
        var text := Strip(s.bracket);
        if text == "" then Err(EmptyBracket)
        else Ok(s.(segments := s.segments + [Bracketed(text)], bracket := "", inBracket := false))
      else Ok(s.(bracket := s.bracket + [c]))
    else if c == '.' then Ok(Flush(s))
    else if c == '[' then Ok(Flush(s).(inBracket := true))
    else Ok(s.(token := s.token + [c]))
  }

  function Scan(s: State, text: string): Result<State>
    decreases |text|
  {
    if text == "" then Ok(s)
    else match Next(s, text[0])
      case Err(p) => Err(p)
      case Ok(s') => Scan(s', text[1..])
  }

  function Finish(r: Result<State>): Result<seq<Segment>> {
    match r
    case Err(p) => Err(p)
    case Ok(s) =>
      if s.quote.Some? || s.inBracket then Err(Unclosed)
      else if Flush(s).segments == [] then Err(EmptyPath)
      else Ok(Flush(s).segments)
  }

  function Parsed(path: string): Result<seq<Segment>> {
    if path == "" then Err(EmptyPath) else Finish(Scan(START, path))
  }

  /** The parser as it is written, one character at a time over mutable lists. */
  method ParseSegments(path: string) returns (out: Result<seq<Segment>>)
    ensures out == Parsed(path)
  {
    if path == "" { return Err(EmptyPath); }
    var segments: seq<Segment>, token, bracket, inBracket := [], "", "", false;
    var quote: Option<char> := None;
    for i := 0 to |path|
      invariant Scan(START, path) == Scan(State(segments, token, bracket, inBracket, quote), path[i..])
    {
      var c := path[i];
      assert path[i..][0] == c && path[i..][1..] == path[i + 1..];
      if inBracket {
        if quote.Some? {
          if c == quote.value { quote := None; } else { bracket := bracket + [c]; }
        } else if IsQuote(c) {
          quote := Some(c);
        } else if c == ']' {
          var text := Strip(bracket);
          if text == "" { return Err(EmptyBracket); }
          segments, bracket, inBracket := segments + [Bracketed(text)], "", false;
        } else {
          bracket := bracket + [c];
        }
      } else if c == '.' {
        if token != "" { segments, token := segments + [Name(token)], ""; }
      } else if c == '[' {
        if token != "" { segments, token := segments + [Name(token)], ""; }
        inBracket := true;
      } else {
        token := token + [c];
      }
    }
    if quote.Some? || inBracket { return Err(Unclosed); }
    if token != "" { segments := segments + [Name(token)]; }
    if segments == [] { return Err(EmptyPath); }
    out := Ok(segments);
  }

  lemma {:induction false} ScanConcat(s: State, a: string, b: string)
    ensures Scan(s, a + b) == match Scan(s, a) case Err(p) => Err(p) case Ok(s') => Scan(s', b)
    decreases |a|
  {
    if a == "" {
      assert a + b == b;
    } else {
      assert (a + b)[0] == a[0] && (a + b)[1..] == a[1..] + b;
      match Next(s, a[0]) {
        case Err(_) =>
        case Ok(s') => ScanConcat(s', a[1..], b);
      }
    }
  }

  // ---------------------------------------------------------------- writing paths

  /** One way of writing a segment. */
  datatype Form = Plain(name: string) | Quoted(name: string, quote: char) | Number_(index: nat)

  ghost predicate PlainText(s: string) { s != "" && forall i | 0 <= i < |s| :: s[i] != '.' && s[i] != '[' }

  /** A quoted name comes back unless it is padded, looks like a number or holds its own quote. */
  ghost predicate ValidForm(f: Form) {
    match f
    case Plain(name) => PlainText(name)
    case Quoted(name, q) => IsQuote(q) && name != "" && Strip(name) == name && !AllDigits(name) && q !in name
    case Number_(_) => true
  }

  function Meaning(f: Form): Segment {
    match f
    case Plain(name) => Name(name)
    case Quoted(name, _) => Name(name)
    case Number_(n) => Index(n)
  }

  function Meanings(fs: seq<Form>): (ss: seq<Segment>)
    ensures |ss| == |fs|
  {
    seq(|fs|, i requires 0 <= i < |fs| => Meaning(fs[i]))
  }

  function Write(f: Form): string {
    match f
    case Plain(name) => "." + name
    case Quoted(name, q) => "[" + [q] + name + [q] + "]"
    case Number_(n) => "[" + Decimal(n) + "]"
  }

  function WriteAll(fs: seq<Form>): string {
    if fs == [] then "" else WriteAll(fs[..|fs| - 1]) + Write(fs[|fs| - 1])
  }

  lemma {:induction false} ScanPlain(s: State, name: string)
    requires !s.inBracket && forall i | 0 <= i < |name| :: name[i] != '.' && name[i] != '['
    ensures Scan(s, name) == Ok(s.(token := s.token + name))
    decreases |name|
  {
    if name == "" {
      assert s.token + name == s.token;
    } else {
      var s' := s.(token := s.token + [name[0]]);
      ScanPlain(s', name[1..]);
      assert s'.token + name[1..] == s.token + name;
    }
  }

  lemma {:induction false} ScanQuoted(s: State, name: string)
    requires s.inBracket && s.quote.Some? && s.quote.value !in name
    ensures Scan(s, name) == Ok(s.(bracket := s.bracket + name))
    decreases |name|
  {
    if name == "" {
      assert s.bracket + name == s.bracket;
    } else {
      var s' := s.(bracket := s.bracket + [name[0]]);
      ScanQuoted(s', name[1..]);
      assert s'.bracket + name[1..] == s.bracket + name;
    }
  }

  lemma {:induction false} ScanDigits(s: State, text: string)
    requires s.inBracket && s.quote.None? && forall i | 0 <= i < |text| :: IsDigit(text[i])
    ensures Scan(s, text) == Ok(s.(bracket := s.bracket + text))
    decreases |text|
  {
    if text == "" {
      assert s.bracket + text == s.bracket;
    } else {
      var s' := s.(bracket := s.bracket + [text[0]]);
      ScanDigits(s', text[1..]);
      assert s'.bracket + text[1..] == s.bracket + text;
    }
  }

  lemma ScanChar(s: State, c: char)
    ensures Scan(s, [c]) == Next(s, c)
  {
    assert [c][1..] == "";
  }

  /** Between two segments: nothing is open, and at most a plain name is waiting to be flushed. */
  ghost predicate Between(s: State, done: seq<Segment>) {
    !s.inBracket && s.quote.None? && s.bracket == "" && Flush(s).segments == done
  }

  /** Writing one more segment makes the automaton see one more segment. */
  lemma ScanForm(s: State, done: seq<Segment>, f: Form)
    requires Between(s, done) && ValidForm(f)
    ensures Scan(s, Write(f)).Ok? && Between(Scan(s, Write(f)).value, done + [Meaning(f)])
  {
    match f {
      case Plain(name) => PlainForm(s, done, name);
      case Quoted(name, q) => QuotedForm(s, done, name, q);
      case Number_(n) => NumberForm(s, done, n);
    }
  }

  lemma PlainForm(s: State, done: seq<Segment>, name: string)
    requires Between(s, done) && PlainText(name)
    ensures Scan(s, "." + name).Ok? && Between(Scan(s, "." + name).value, done + [Name(name)])
  {
    ScanConcat(s, ".", name);
    ScanChar(s, '.');
    hide Scan;
    ScanPlain(Flush(s), name);
    assert Flush(s).token + name == name;
  }

  lemma QuotedForm(s: State, done: seq<Segment>, name: string, q: char)
    requires Between(s, done) && ValidForm(Quoted(name, q))
    ensures var text := "[" + [q] + name + [q] + "]";
            Scan(s, text).Ok? && Between(Scan(s, text).value, done + [Name(name)])
  {
    hide Scan, Strip, AllDigits;
    var s1 := Flush(s).(inBracket := true);
    var s2 := s1.(quote := Some(q));
    var s3 := s2.(bracket := name);
    var s4 := s3.(quote := None);
    ScanChar(s, '[');
    ScanChar(s1, q);
    ScanQuoted(s2, name);
    assert s2.bracket + name == name;
    ScanChar(s3, q);
    ScanChar(s4, ']');
    ScanConcat(s, "[", [q]);
    ScanConcat(s, "[" + [q], name);
    ScanConcat(s, "[" + [q] + name, [q]);
    ScanConcat(s, "[" + [q] + name + [q], "]");
  }

  lemma NumberForm(s: State, done: seq<Segment>, n: nat)
    requires Between(s, done)
    ensures var text := "[" + Decimal(n) + "]";
            Scan(s, text).Ok? && Between(Scan(s, text).value, done + [Index(n)])
  {
    DigitsAreTrimmed(Decimal(n));
    NumberOfDecimal(n);
    hide Scan, Strip, Decimal, Number;
    var s1 := Flush(s).(inBracket := true);
    var s2 := s1.(bracket := Decimal(n));
    ScanChar(s, '[');
    ScanDigits(s1, Decimal(n));
    assert s1.bracket + Decimal(n) == Decimal(n);
    ScanChar(s2, ']');
    ScanConcat(s, "[", Decimal(n));
    ScanConcat(s, "[" + Decimal(n), "]");
  }

  lemma {:induction false} ScanAll(fs: seq<Form>)
    requires forall i | 0 <= i < |fs| :: ValidForm(fs[i])
    ensures Scan(START, WriteAll(fs)).Ok? && Between(Scan(START, WriteAll(fs)).value, Meanings(fs))
    decreases |fs|
  {
    if fs == [] {
      assert Meanings(fs) == [];
    } else {
      var n := |fs| - 1;
      assert Meanings(fs[..n]) + [Meaning(fs[n])] == Meanings(fs);
      assert WriteAll(fs) == WriteAll(fs[..n]) + Write(fs[n]);
      hide Scan, Between, ValidForm, Write, WriteAll, Meanings, Meaning;
      ScanAll(fs[..n]);
      ScanConcat(START, WriteAll(fs[..n]), Write(fs[n]));
      ScanForm(Scan(START, WriteAll(fs[..n])).value, Meanings(fs[..n]), fs[n]);
    }
  }

  lemma {:induction false} WrittenNotEmpty(fs: seq<Form>)
    requires fs != []
    ensures WriteAll(fs) != ""
  {
    assert |Write(fs[|fs| - 1])| > 0;
  }

  /** Parsing undoes writing, whichever valid way each segment is written. */
  lemma ParseUndoesWrite(fs: seq<Form>)
    requires fs != [] && forall i | 0 <= i < |fs| :: ValidForm(fs[i])
    ensures Parsed(WriteAll(fs)) == Ok(Meanings(fs))
  {
    ScanAll(fs);
    WrittenNotEmpty(fs);
    hide Scan, WriteAll;
  }

  /** Every list of indices and of trimmed, non-numeric names without an apostrophe can be written. */
  lemma CanWrite(ss: seq<Segment>) returns (fs: seq<Form>)
    requires forall i | 0 <= i < |ss| && ss[i].Name? :: ss[i].name != "" && Strip(ss[i].name) == ss[i].name
               && !AllDigits(ss[i].name) && '\'' !in ss[i].name
    ensures Meanings(fs) == ss && forall i | 0 <= i < |fs| :: ValidForm(fs[i])
  {
    fs := seq(|ss|, i requires 0 <= i < |ss| =>
      match ss[i] case Name(name) => Quoted(name, '\'') case Index(n) => Number_(n));
    assert forall i | 0 <= i < |fs| :: ValidForm(fs[i]);
  }

  /** A quoted name parses to its stripped text, as a number if that is all digits. */
  lemma QuotedParses(name: string, q: char)
    requires IsQuote(q) && q !in name
    ensures var text := Strip(name);
            Parsed("[" + [q] + name + [q] + "]") == if text == "" then Err(EmptyBracket) else Ok([Bracketed(text)])
  {
    hide Scan, Strip, AllDigits, Bracketed;
    var s1 := START.(inBracket := true);
    var s2 := s1.(quote := Some(q));
    var s3 := s2.(bracket := name);
    var s4 := s3.(quote := None);
    ScanChar(START, '[');
    ScanChar(s1, q);
    ScanQuoted(s2, name);
    assert s2.bracket + name == name;
    ScanChar(s3, q);
    ScanChar(s4, ']');
    ScanConcat(START, "[", [q]);
    ScanConcat(START, "[" + [q], name);
    ScanConcat(START, "[" + [q] + name, [q]);
    ScanConcat(START, "[" + [q] + name + [q], "]");
    assert [] + [Bracketed(Strip(name))] == [Bracketed(Strip(name))];
  }

  /**
   A quoted name comes back if and only if it is not empty, not padded and not all digits;
   and it comes back as an index exactly when its stripped text is all digits.
   */
  lemma QuotedComesBack(name: string, q: char)
    requires IsQuote(q) && q !in name
    ensures Parsed("[" + [q] + name + [q] + "]") == Ok([Name(name)]) <==>
            name != "" && Strip(name) == name && !AllDigits(name)
    ensures (exists k :: Parsed("[" + [q] + name + [q] + "]") == Ok([Index(k)])) <==> AllDigits(Strip(name))
    ensures AllDigits(Strip(name)) ==> Parsed("[" + [q] + name + [q] + "]") == Ok([Index(Number(Strip(name)))])
  {
    QuotedParses(name, q);
    hide Parsed, Strip, Number;
  }

  /** It does happen: the key "7" cannot be written in quotes, only dotted. */
  lemma QuotedNumberIsIndex()
    ensures Parsed("['7']") == Ok([Index(7)])
    ensures Parsed(".7") == Ok([Name("7")])
  {
    assert WriteAll([Plain("7")]) == WriteAll([]) + ".7" && WriteAll([]) + ".7" == ".7";
    ParseUndoesWrite([Plain("7")]);
    assert Meanings([Plain("7")]) == [Name("7")];
    DigitsAreTrimmed("7");
    assert Number("7") == 7 by { assert "7"[..0] == ""; }
    assert "[" + ['\''] + "7" + ['\''] + "]" == "['7']";
    QuotedComesBack("7", '\'');
  }

  // ---------------------------------------------------------------- resolving

  datatype Value = Scalar(text: string) | List(items: seq<Value>) | Mapping(fields: map<string, Value>)

  function Resolve(v: Value, path: seq<Segment>): Result<Value> {
    if path == [] then Ok(v)
    else
      match path[0]
      case Index(n) =>
        if !v.List? then Err(ExpectedList)
        else if n >= |v.items| then Err(OutOfRange)
        else Resolve(v.items[n], path[1..])
      case Name(name) =>
        if !v.Mapping? then Err(ExpectedMapping)
        else if name !in v.fields then Err(MissingKey)
        else Resolve(v.fields[name], path[1..])
  }

  /** Resolving a longer path is resolving its beginning and then its end, errors included. */
  lemma {:induction false} ResolveConcat(v: Value, a: seq<Segment>, b: seq<Segment>)
    ensures Resolve(v, a + b) == match Resolve(v, a) case Err(p) => Err(p) case Ok(w) => Resolve(w, b)
    decreases |a|
  {
    if a == [] {
      assert a + b == b;
    } else {
      assert (a + b)[0] == a[0] && (a + b)[1..] == a[1..] + b;
      match a[0] {
        case Index(n) => if v.List? && n < |v.items| { ResolveConcat(v.items[n], a[1..], b); }
        case Name(name) => if v.Mapping? && name in v.fields { ResolveConcat(v.fields[name], a[1..], b); }
      }
    }
  }

  lemma Associative(a: string, b: string, c: string)
    ensures (a + b) + c == a + (b + c)
  {
  }

  lemma {:induction false} WriteConcat(a: seq<Form>, b: seq<Form>)
    ensures WriteAll(a + b) == WriteAll(a) + WriteAll(b)
    decreases |b|
  {
    if b == [] {
      assert a + b == a;
    } else {
      var n := |b| - 1;
      assert (a + b)[..|a + b| - 1] == a + b[..n] && (a + b)[|a + b| - 1] == b[n];
      WriteConcat(a, b[..n]);
      hide Write;
      Associative(WriteAll(a), WriteAll(b[..n]), Write(b[n]));
    }
  }

  /** From text to value: the text of two paths put together leads through the first to the second. */
  lemma ResolveText(v: Value, a: seq<Form>, b: seq<Form>)
    requires a != [] && b != [] && forall i | 0 <= i < |a| :: ValidForm(a[i])
    requires forall i | 0 <= i < |b| :: ValidForm(b[i])
    ensures var p, q := WriteAll(a), WriteAll(b);
            && Parsed(p).Ok? && Parsed(q).Ok? && Parsed(p + q).Ok?
            && Resolve(v, Parsed(p + q).value) ==
               match Resolve(v, Parsed(p).value) case Err(e) => Err(e) case Ok(w) => Resolve(w, Parsed(q).value)
  {
    assert Meanings(a + b) == Meanings(a) + Meanings(b);
    hide Parsed, WriteAll, Resolve, ValidForm, Meanings;
    ParseUndoesWrite(a);
    ParseUndoesWrite(b);
    ParseUndoesWrite(a + b);
    WriteConcat(a, b);
    ResolveConcat(v, Meanings(a), Meanings(b));
  }
}
