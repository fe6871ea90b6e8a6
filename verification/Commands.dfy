/**
 Comparing the server command of a document with the one in a test configuration.

 A command is parsed from tokens into a model and parameters; two commands are compared by
 counting the text entries they are turned into.
 */
module Commands {
  import opened Basics

  datatype Param = Param(name: string, value: Option<string>)

  datatype Command = Command(model: string, params: seq<Param>)

  datatype Problem = NotServe | NoModel | Positional | Duplicate

  datatype Result = Ok(command: Command) | Err(problem: Problem)

  // ---------------------------------------------------------------- whitespace

  ghost predicate IsWord(w: string) { w != "" && forall i | 0 <= i < |w| :: !IsSpace(w[i]) }

  /** The words of s; the last one is still growing when s does not end in a space. */
  function Words(s: string): seq<string> {
    if s == "" then []
    else
      var n := |s| - 1;
      var ws := Words(s[..n]);
      if IsSpace(s[n]) then ws
      else if n == 0 || IsSpace(s[n - 1]) || ws == [] then ws + [[s[n]]]
      else ws[..|ws| - 1] + [ws[|ws| - 1] + [s[n]]]
  }

  function Join(ws: seq<string>): string {
    if ws == [] then "" else if |ws| == 1 then ws[0] else Join(ws[..|ws| - 1]) + " " + ws[|ws| - 1]
  }

  function Normal(s: string): string { Join(Words(s)) }

  lemma {:induction false} WordsAreWords(s: string)
    ensures forall i | 0 <= i < |Words(s)| :: IsWord(Words(s)[i])
    decreases |s|
  {
    if s != "" { WordsAreWords(s[..|s| - 1]); }
  }

  /** Appending a word after a space, or to nothing, adds exactly that word. */
  lemma {:induction false} WordsOfAppended(s: string, w: string)
    requires IsWord(w) && (s == "" || IsSpace(s[|s| - 1]))
    ensures Words(s + w) == Words(s) + [w]
    decreases |w|
  {
    var w', c := w[..|w| - 1], w[|w| - 1];
    var before := s + w';
    assert s + w == before + [c] && w == w' + [c];
    WordsOfChar(before, c);
    if w' == "" {
      assert before == s;
    } else {
      assert before[|before| - 1] == w[|w| - 2];
      hide Words;
      WordsOfAppended(s, w');
    }
  }

  lemma WordsOfChar(s: string, c: char)
    requires !IsSpace(c)
    ensures var ws := Words(s);
            Words(s + [c]) ==
            if s == "" || IsSpace(s[|s| - 1]) || ws == [] then ws + [[c]] else ws[..|ws| - 1] + [ws[|ws| - 1] + [c]]
  {
    var t := s + [c];
    assert t[..|s|] == s && t[|s|] == c && (s != "" ==> t[|s| - 1] == s[|s| - 1]);
  }

  lemma WordsBeforeSpace(s: string)
    ensures Words(s + " ") == Words(s)
  {
    assert (s + " ")[..|s|] == s;
  }

  lemma WordsOfLonger(s: string, w: string)
    requires IsWord(w)
    ensures Words(s + " " + w) == Words(s) + [w]
  {
    hide Words;
    WordsBeforeSpace(s);
    assert (s + " ")[|s|] == ' ';
    WordsOfAppended(s + " ", w);
  }

  lemma {:induction false} WordsOfJoin(ws: seq<string>)
    requires forall i | 0 <= i < |ws| :: IsWord(ws[i])
    ensures Words(Join(ws)) == ws
    decreases |ws|
  {
    if |ws| == 1 {
      WordsOfAppended("", ws[0]);
      assert "" + ws[0] == ws[0] && ws == [ws[0]];
    } else if |ws| > 1 {
      var n := |ws| - 1;
      JoinSnoc(ws);
      hide Words, Join, IsWord;
      WordsOfJoin(ws[..n]);
      WordsOfLonger(Join(ws[..n]), ws[n]);
      assert ws == ws[..n] + [ws[n]];
    }
  }

  lemma JoinSnoc(ws: seq<string>)
    requires |ws| > 1
    ensures Join(ws) == Join(ws[..|ws| - 1]) + " " + ws[|ws| - 1]
  {
  }

  /** Normalising twice is normalising once. */
  lemma NormalIdempotent(s: string)
    ensures Normal(Normal(s)) == Normal(s)
  {
    WordsAreWords(s);
    WordsOfJoin(Words(s));
  }

  // ---------------------------------------------------------------- parsing

  predicate IsFlag(t: string) { |t| >= 2 && t[0] == '-' && t[1] == '-' }

  datatype Params = Params(params: seq<Param>) | Bad(problem: Problem)

  /** The parameters in the tokens from i on, after the names in `seen`. */
  function ParamsFrom(tokens: seq<string>, i: nat, seen: set<string>): Params
    requires i <= |tokens|
    decreases |tokens| - i
  {
    if i == |tokens| then Params([])
    else
      var t := tokens[i];
      if !IsFlag(t) then Bad(Positional)
      else if t in seen then Bad(Duplicate)
      else
        var valued := i + 1 < |tokens| && !IsFlag(tokens[i + 1]);
        var rest := ParamsFrom(tokens, if valued then i + 2 else i + 1, seen + {t});
        if rest.Bad? then rest
        else Params([Param(t, if valued then Some(Normal(tokens[i + 1])) else None)] + rest.params)
  }

  function Parsed(tokens: seq<string>): Result {
    if |tokens| < 3 || tokens[0] != "vllm" || tokens[1] != "serve" then Err(NotServe)
    else if IsFlag(tokens[2]) then Err(NoModel)
    else
      match ParamsFrom(tokens, 3, {})
      case Bad(p) => Err(p)
      case Params(ps) => Ok(Command(Normal(tokens[2]), ps))
  }

  /** The parser as it is written, with an index and a set of names seen. */
  method ParseTokens(tokens: seq<string>) returns (out: Result)
    ensures out == Parsed(tokens)
  {
    hide Normal, IsFlag, ParamsFrom;
    if |tokens| < 3 || tokens[0] != "vllm" || tokens[1] != "serve" { return Err(NotServe); }
    if IsFlag(tokens[2]) { return Err(NoModel); }
    var rest := ParseParams(tokens);
    if rest.Bad? { return Err(rest.problem); }
    out := Ok(Command(Normal(tokens[2]), rest.params));
  }

  /** One token decides: the end, an error, or a parameter and the rest. */
  lemma ParamsStep(tokens: seq<string>, i: nat, seen: set<string>)
    requires i <= |tokens|
    ensures i == |tokens| ==> ParamsFrom(tokens, i, seen) == Params([])
    ensures i < |tokens| && !IsFlag(tokens[i]) ==> ParamsFrom(tokens, i, seen) == Bad(Positional)
    ensures i < |tokens| && IsFlag(tokens[i]) && tokens[i] in seen ==> ParamsFrom(tokens, i, seen) == Bad(Duplicate)
    ensures i < |tokens| && IsFlag(tokens[i]) && tokens[i] !in seen ==>
              var valued := i + 1 < |tokens| && !IsFlag(tokens[i + 1]);
              var p := Param(tokens[i], if valued then Some(Normal(tokens[i + 1])) else None);
              var rest := ParamsFrom(tokens, if valued then i + 2 else i + 1, seen + {tokens[i]});
              ParamsFrom(tokens, i, seen) == if rest.Bad? then rest else Params([p] + rest.params)
  {
    hide Normal, IsFlag;
  }

  method ParseParams(tokens: seq<string>) returns (out: Params)
    requires |tokens| >= 3
    ensures out == ParamsFrom(tokens, 3, {})
  {
    hide Normal, IsFlag, ParamsFrom;
    var params: seq<Param>, seen: set<string>, i := [], {}, 3;
    ghost var whole := ParamsFrom(tokens, 3, {});
    assert whole.Params? ==> [] + whole.params == whole.params;
    while i < |tokens|
      invariant 3 <= i <= |tokens|
      invariant var rest := ParamsFrom(tokens, i, seen);
                whole == if rest.Bad? then rest else Params(params + rest.params)
      decreases |tokens| - i
    {
      var t := tokens[i];
      ParamsStep(tokens, i, seen);
      if !IsFlag(t) { return Bad(Positional); }
      if t in seen { return Bad(Duplicate); }
      var valued := i + 1 < |tokens| && !IsFlag(tokens[i + 1]);
      var p := Param(t, if valued then Some(Normal(tokens[i + 1])) else None);
      var next := if valued then i + 2 else i + 1;
      ghost var rest := ParamsFrom(tokens, next, seen + {t});
      assert rest.Params? ==> params + ([p] + rest.params) == (params + [p]) + rest.params;
      params, i, seen := params + [p], next, seen + {t};
    }
    ParamsStep(tokens, i, seen);
    assert params + [] == params;
    out := Params(params);
  }

  // ---------------------------------------------------------------- writing

  function WriteParam(p: Param): seq<string> {
    match p.value case None => [p.name] case Some(v) => [p.name, v]
  }

  function WriteParams(ps: seq<Param>): seq<string> {
    if ps == [] then [] else WriteParam(ps[0]) + WriteParams(ps[1..])
  }

  function Write(c: Command): seq<string> { ["vllm", "serve", c.model] + WriteParams(c.params) }

  ghost predicate ValidParam(p: Param) {
    IsFlag(p.name) && (p.value.Some? ==> !IsFlag(p.value.value) && Normal(p.value.value) == p.value.value)
  }

  ghost predicate DistinctNames(ps: seq<Param>) {
    forall i, j | 0 <= i < j < |ps| :: ps[i].name != ps[j].name
  }

  ghost predicate ValidCommand(c: Command) {
    && !IsFlag(c.model) && Normal(c.model) == c.model && DistinctNames(c.params)
    && forall i | 0 <= i < |c.params| :: ValidParam(c.params[i])
  }

  lemma {:induction false} ParamsOfWritten(tokens: seq<string>, i: nat, ps: seq<Param>, seen: set<string>)
    requires i <= |tokens| && tokens[i..] == WriteParams(ps) && DistinctNames(ps)
    requires forall k | 0 <= k < |ps| :: ValidParam(ps[k]) && ps[k].name !in seen
    ensures ParamsFrom(tokens, i, seen) == Params(ps)
    decreases |ps|
  {
    hide Normal, IsFlag;
    if ps != [] {
      var p, tail := ps[0], ps[1..];
      var n := |WriteParam(p)|;
      assert tokens[i] == tokens[i..][0] == p.name;
      assert tokens[i + n..] == tokens[i..][n..] == WriteParams(tail);
      if p.value.Some? {
        assert tokens[i + 1] == tokens[i..][1] == p.value.value;
      } else if tail != [] {
        assert tokens[i + 1] == tokens[i + n..][0] == tail[0].name;
        assert ValidParam(ps[1]);
      }
      ParamsOfWritten(tokens, i + n, tail, seen + {p.name});
      assert ps == [p] + tail;
    }
  }

  /** Parsing undoes writing for every command whose names are distinct flags and whose values are not flags. */
  lemma ParseUndoesWrite(c: Command)
    requires ValidCommand(c)
    ensures Parsed(Write(c)) == Ok(c)
  {
    hide Normal, IsFlag, ParamsFrom;
    var tokens := Write(c);
    assert tokens[3..] == WriteParams(c.params);
    ParamsOfWritten(tokens, 3, c.params, {});
  }

  /** Tokens in which normalising changes nothing. */
  ghost predicate NormalTokens(tokens: seq<string>) {
    forall i | 0 <= i < |tokens| :: Normal(tokens[i]) == tokens[i]
  }

  lemma {:induction false} WrittenOfParams(tokens: seq<string>, i: nat, seen: set<string>)
    requires i <= |tokens| && NormalTokens(tokens) && ParamsFrom(tokens, i, seen).Params?
    ensures var ps := ParamsFrom(tokens, i, seen).params;
            && WriteParams(ps) == tokens[i..] && DistinctNames(ps)
            && forall k | 0 <= k < |ps| :: ValidParam(ps[k]) && ps[k].name !in seen
    decreases |tokens| - i
  {
    hide Normal, IsFlag;
    if i < |tokens| {
      var valued := i + 1 < |tokens| && !IsFlag(tokens[i + 1]);
      var next := if valued then i + 2 else i + 1;
      WrittenOfParams(tokens, next, seen + {tokens[i]});
      var ps := ParamsFrom(tokens, i, seen).params;
      assert ps[1..] == ParamsFrom(tokens, next, seen + {tokens[i]}).params;
      assert ValidParam(ps[0]);
      assert tokens[i..] == WriteParam(ps[0]) + tokens[next..];
    }
  }

  /** And writing undoes parsing: tokens parse if and only if they are what some valid command is written as. */
  lemma WriteUndoesParse(tokens: seq<string>)
    requires NormalTokens(tokens)
    ensures Parsed(tokens).Ok? ==> ValidCommand(Parsed(tokens).command) && Write(Parsed(tokens).command) == tokens
    ensures Parsed(tokens).Ok? <==> exists c :: ValidCommand(c) && Write(c) == tokens
  {
    hide Normal, IsFlag, ParamsFrom;
    if Parsed(tokens).Ok? {
      WrittenOfParams(tokens, 3, {});
      assert tokens == tokens[..3] + tokens[3..];
      assert tokens[..3] == ["vllm", "serve", tokens[2]];
    }
    forall c | ValidCommand(c) && Write(c) == tokens
      ensures Parsed(tokens).Ok?
    {
      ParseUndoesWrite(c);
    }
  }

  /** The fragments of several targets, put together after the fixed beginning. */
  method JoinFragments(fragments: seq<seq<string>>) returns (tokens: seq<string>)
    ensures tokens == ["vllm", "serve"] + Concat(fragments)
  {
    tokens := ["vllm", "serve"];
    for i := 0 to |fragments|
      invariant tokens == ["vllm", "serve"] + Concat(fragments[..i])
    {
      assert fragments[..i + 1][..i] == fragments[..i];
      tokens := tokens + fragments[i];
    }
    assert fragments[..|fragments|] == fragments;
  }

  function Concat(fragments: seq<seq<string>>): seq<string> {
    if fragments == [] then [] else Concat(fragments[..|fragments| - 1]) + fragments[|fragments| - 1]
  }

  /** However a command is spread over targets, it is parsed as the whole. */
  lemma FragmentsParse(c: Command, fragments: seq<seq<string>>)
    requires ValidCommand(c) && Concat(fragments) == [c.model] + WriteParams(c.params)
    ensures Parsed(["vllm", "serve"] + Concat(fragments)) == Ok(c)
  {
    assert ["vllm", "serve"] + ([c.model] + WriteParams(c.params)) == Write(c);
    ParseUndoesWrite(c);
  }

  // ---------------------------------------------------------------- comparing

  function Entry(p: Param): string {
    match p.value case None => p.name case Some(v) => p.name + " " + v
  }

  function ParamEntries(ps: seq<Param>): (es: seq<string>)
    ensures |es| == |ps|
  {
    seq(|ps|, i requires 0 <= i < |ps| => Entry(ps[i]))
  }

  function Entries(c: Command): seq<string> { ["model=" + c.model] + ParamEntries(c.params) }

  datatype Difference = Difference(extra: multiset<string>, missing: multiset<string>)

  function Compare(doc: seq<string>, yaml: seq<string>): Difference {
    Difference(multiset(doc) - multiset(yaml), multiset(yaml) - multiset(doc))
  }

  predicate NoDifference(d: Difference) { d.extra == multiset{} && d.missing == multiset{} }

  lemma ComparesCounts(doc: seq<string>, yaml: seq<string>)
    ensures NoDifference(Compare(doc, yaml)) <==> multiset(doc) == multiset(yaml)
  {
    var a, b := multiset(doc), multiset(yaml);
    if a - b == multiset{} && b - a == multiset{} {
      forall e: string
        ensures a[e] == b[e]
      {
        assert (a - b)[e] == 0 && (b - a)[e] == 0;
      }
    }
  }

  /** No two of the parameters read the same as entries. */
  ghost predicate Unambiguous(ps: multiset<Param>) {
    forall p, q | p in ps && q in ps && Entry(p) == Entry(q) :: p == q
  }

  lemma {:induction false} EntryCounts(ps: seq<Param>, p: Param)
    requires forall q | q in ps && Entry(q) == Entry(p) :: q == p
    ensures multiset(ParamEntries(ps))[Entry(p)] == multiset(ps)[p]
    decreases |ps|
  {
    if ps == [] {
      assert ParamEntries(ps) == [];
    } else {
      var n := |ps| - 1;
      EntryCounts(ps[..n], p);
      assert ps == ps[..n] + [ps[n]];
      assert ParamEntries(ps) == ParamEntries(ps[..n]) + [Entry(ps[n])];
    }
  }

  /** Entries determine the parameters, if these are told apart by their entries. */
  lemma SameEntries(a: seq<Param>, b: seq<Param>)
    requires Unambiguous(multiset(a) + multiset(b))
    ensures multiset(ParamEntries(a)) == multiset(ParamEntries(b)) <==> multiset(a) == multiset(b)
  {
    var both := multiset(a) + multiset(b);
    forall p | p in both
      ensures multiset(ParamEntries(a))[Entry(p)] == multiset(a)[p]
      ensures multiset(ParamEntries(b))[Entry(p)] == multiset(b)[p]
    {
      assert forall q | q in a || q in b :: q in both;
      EntryCounts(a, p);
      EntryCounts(b, p);
    }
    hide Entry;
    if multiset(ParamEntries(a)) == multiset(ParamEntries(b)) {
      assert forall p :: multiset(a)[p] == multiset(b)[p] by {
        forall p ensures multiset(a)[p] == multiset(b)[p] { assert p !in both ==> multiset(a)[p] == 0 && multiset(b)[p] == 0; }
      }
    } else if multiset(a) == multiset(b) {
      SameCounts(a, b, both);
    }
  }

  lemma SameCounts(a: seq<Param>, b: seq<Param>, both: multiset<Param>)
    requires multiset(a) == multiset(b) && both == multiset(a) + multiset(b)
    requires forall p | p in both :: multiset(ParamEntries(a))[Entry(p)] == multiset(a)[p]
    requires forall p | p in both :: multiset(ParamEntries(b))[Entry(p)] == multiset(b)[p]
    ensures multiset(ParamEntries(a)) == multiset(ParamEntries(b))
  {
    var x, y := multiset(ParamEntries(a)), multiset(ParamEntries(b));
    forall e: string
      ensures x[e] == y[e]
    {
      if e in ParamEntries(a) {
        var i :| 0 <= i < |a| && ParamEntries(a)[i] == e;
        assert a[i] in both;
      }
    }
  }

  ghost predicate Flags(ps: seq<Param>) { forall i | 0 <= i < |ps| :: IsFlag(ps[i].name) }

  lemma ModelEntryApart(model: string, ps: seq<Param>)
    requires Flags(ps)
    ensures "model=" + model !in ParamEntries(ps)
  {
    forall i | 0 <= i < |ps|
      ensures ParamEntries(ps)[i] != "model=" + model
    {
      assert Entry(ps[i])[0] == '-' && ("model=" + model)[0] == 'm';
    }
  }

  /** Some name is another one continued after a space. */
  ghost predicate Continued(names: set<string>) {
    exists m, n :: m in names && n in names && m + " " <= n
  }

  /** Equal entries of different parameters: the shorter name and a space begin the longer name. */
  lemma SameEntryContinues(p: Param, q: Param)
    requires Entry(p) == Entry(q) && p != q
    ensures p.name + " " <= q.name || q.name + " " <= p.name
  {
    hide Entry;
    if |p.name| == |q.name| {
      SameLengthSame(p, q);
      assert false;
    } else if |p.name| < |q.name| {
      ContinuesAt(p, q, Entry(p));
    } else {
      ContinuesAt(q, p, Entry(p));
    }
  }

  lemma SameLengthSame(p: Param, q: Param)
    requires Entry(p) == Entry(q) && |p.name| == |q.name|
    ensures p == q
  {
    var e := Entry(p);
    assert e[..|p.name|] == p.name && e[..|q.name|] == q.name;
    assert p.value.Some? ==> p.value.value == e[|p.name| + 1..];
    assert q.value.Some? ==> q.value.value == e[|q.name| + 1..];
  }

  lemma ContinuesAt(p: Param, q: Param, e: string)
    requires Entry(p) == e == Entry(q) && |p.name| < |q.name|
    ensures p.name + " " <= q.name
  {
    assert forall i | 0 <= i < |q.name| :: q.name[i] == e[i];
    assert forall i | 0 <= i < |p.name| :: p.name[i] == e[i];
    assert p.value.Some? && e[|p.name|] == ' ';
  }

  ghost predicate NamesIn(ps: seq<Param>, names: set<string>) {
    forall i | 0 <= i < |ps| :: ps[i].name in names
  }

  /** On commands whose flags have these names, the comparison finds a difference exactly when there is one. */
  ghost predicate ExactFor(names: set<string>) {
    forall c: Command, d: Command | NamesIn(c.params, names) && NamesIn(d.params, names) :: Decides(c, d)
  }

  ghost predicate Decides(c: Command, d: Command) {
    NoDifference(Compare(Entries(c), Entries(d))) <==> c.model == d.model && multiset(c.params) == multiset(d.params)
  }

  lemma UnambiguousDecides(c: Command, d: Command)
    requires Flags(c.params) && Flags(d.params) && Unambiguous(multiset(c.params) + multiset(d.params))
    ensures Decides(c, d)
  {
    ComparesCounts(Entries(c), Entries(d));
    SameEntries(c.params, d.params);
    ModelEntryApart(c.model, d.params);
    ModelEntryApart(d.model, c.params);
    hide ParamEntries, Entry, Flags, Unambiguous;
    FirstApart("model=" + c.model, ParamEntries(c.params), "model=" + d.model, ParamEntries(d.params));
    assert "model=" + c.model == "model=" + d.model <==> c.model == d.model by {
      assert ("model=" + c.model)[6..] == c.model && ("model=" + d.model)[6..] == d.model;
    }
  }

  lemma NotContinuedDecides(names: set<string>, c: Command, d: Command)
    requires (forall n | n in names :: IsFlag(n)) && !Continued(names) && NamesIn(c.params, names) && NamesIn(d.params, names)
    ensures Decides(c, d)
  {
    var both := multiset(c.params) + multiset(d.params);
    forall p, q | p in both && q in both && Entry(p) == Entry(q)
      ensures p == q
    {
      assert p.name in names && q.name in names;
      if p != q { SameEntryContinues(p, q); }
    }
    hide Entry, Decides;
    UnambiguousDecides(c, d);
  }

  /** A name continued after a space, as a flag of its own and as the shorter flag with a value. */
  lemma ContinuedHides(m: string, n: string, model: string)
    requires m + " " <= n
    ensures var c, d := Command(model, [Param(n, None)]), Command(model, [Param(m, Some(n[|m| + 1..]))]);
            c != d && Entries(c) == Entries(d) && !Decides(c, d)
  {
    var c, d := Command(model, [Param(n, None)]), Command(model, [Param(m, Some(n[|m| + 1..]))]);
    assert m + " " + n[|m| + 1..] == n;
    assert ParamEntries(c.params) == [n] && ParamEntries(d.params) == [n];
    ComparesCounts(Entries(c), Entries(d));
    assert Param(n, None) in multiset(c.params) && Param(n, None) !in multiset(d.params);
  }

  /**
   The comparison is exact for all commands with flags of these names if and only if no name
   is another one continued after a space.
   */
  lemma CompareExact(names: set<string>)
    requires forall n | n in names :: IsFlag(n)
    ensures ExactFor(names) <==> !Continued(names)
  {
    hide Decides;
    if Continued(names) {
      var m, n :| m in names && n in names && m + " " <= n;
      ContinuedHides(m, n, "");
      var c, d := Command("", [Param(n, None)]), Command("", [Param(m, Some(n[|m| + 1..]))]);
      assert NamesIn(c.params, names) && NamesIn(d.params, names);
    } else {
      forall c: Command, d: Command | NamesIn(c.params, names) && NamesIn(d.params, names)
        ensures Decides(c, d)
      {
        NotContinuedDecides(names, c, d);
      }
    }
  }

  /** In particular it is exact for names without spaces. */
  lemma SpaceFreeExact(names: set<string>)
    requires forall n | n in names :: IsFlag(n) && ' ' !in n
    ensures ExactFor(names)
  {
    hide ExactFor;
    CompareExact(names);
    if Continued(names) {
      var m, n :| m in names && n in names && m + " " <= n;
      HasSpace(m, n);
      assert false;
    }
  }

  lemma HasSpace(m: string, n: string)
    requires m + " " <= n
    ensures ' ' in n
  {
    assert n[|m|] == ' ';
  }

  /** Two lists whose heads do not occur in the other's tail agree as multisets part by part. */
  lemma FirstApart(x: string, a: seq<string>, y: string, b: seq<string>)
    requires x !in b && y !in a
    ensures multiset([x] + a) == multiset([y] + b) <==> x == y && multiset(a) == multiset(b)
  {
    assert multiset([x] + a) == multiset{x} + multiset(a) && multiset([y] + b) == multiset{y} + multiset(b);
    if multiset([x] + a) == multiset([y] + b) {
      assert x in multiset([y] + b);
      assert multiset(a) == multiset([x] + a) - multiset{x};
      assert multiset(b) == multiset([y] + b) - multiset{y};
    }
  }

  /** With a space in a name the comparison can miss a difference. */
  lemma SpaceHidesDifference() returns (c: Command, d: Command)
    ensures Flags(c.params) && Flags(d.params) && c != d
    ensures NoDifference(Compare(Entries(c), Entries(d)))
  {
    c, d := Command("m", [Param("--a b", None)]), Command("m", [Param("--a", Some("b"))]);
    assert "--a" + " " <= "--a b" && "--a b"[4..] == "b";
    ContinuedHides("--a", "--a b", "m");
    ComparesCounts(Entries(c), Entries(d));
  }
}
