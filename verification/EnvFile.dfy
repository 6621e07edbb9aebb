/** The raw environment text area: one `K=V` line per variable, as printed and as parsed back. */
module EnvFile {
  import opened Text

  datatype Line = Skip | Bind(key: string, value: string) | Panic

  /** What a whole text parses to. The Go slice expression `v[1:len(v)-1]` panics on a one-character value. */
  datatype Outcome = Env(env: map<string, string>) | SliceOutOfRange

  /** Starts and ends with the same kind of quote; a lone quote does too. */
  predicate Wrapped(v: string) {
    v != "" && v[0] == v[|v| - 1] && (v[0] == '\"' || v[0] == '\'')
  }

  function Unquoted(v: string): string
    requires Wrapped(v) ==> |v| >= 2
  {
    if Wrapped(v) then v[1..|v| - 1] else v
  }

  function ReadPair(key: string, v: string): Line {
    if Wrapped(v) && |v| < 2 then Panic
    else if key != "" then Bind(key, Unquoted(v))
    else Skip
  }

  function ReadLine(raw: string): Line {
    var line := TrimSpace(raw);
    if line == "" || line[0] == '#' then Skip
    else
      var eq := IndexOf(line, '=');
      if eq == -1 then Skip
      else ReadPair(TrimSpace(line[..eq]), TrimSpace(line[eq + 1..]))
  }

  function ReadLines(texts: seq<string>): (lines: seq<Line>)
    ensures |lines| == |texts|
    ensures forall i :: 0 <= i < |texts| ==> lines[i] == ReadLine(texts[i])
  {
    seq(|texts|, i requires 0 <= i < |texts| => ReadLine(texts[i]))
  }

  /** The lines in order: a panic ends the request, a later binding replaces an earlier one. */
  function EnvOf(lines: seq<Line>): Outcome {
    if lines == [] then Env(map[])
    else
      match EnvOf(lines[..|lines| - 1])
      case SliceOutOfRange => SliceOutOfRange
      case Env(env) =>
        match lines[|lines| - 1]
        case Skip => Env(env)
        case Bind(k, v) => Env(env[k := v])
        case Panic => SliceOutOfRange
  }

  function Parse(raw: string): Outcome {
    EnvOf(ReadLines(Split(raw, '\n')))
  }

  method ParseRawEnv(raw: string) returns (o: Outcome)
    ensures o == Parse(raw)
  {
    var texts := Split(raw, '\n');
    ghost var lines := ReadLines(texts);
    var envMap: map<string, string> := map[];
    for i := 0 to |texts|
      invariant EnvOf(lines[..i]) == Env(envMap)
    {
      assert lines[..i + 1][..i] == lines[..i];
      var line := TrimSpace(texts[i]);
      if line == "" || line[0] == '#' {
        continue;
      }
      var eq := IndexOf(line, '=');
      if eq != -1 {
        var k := TrimSpace(line[..eq]);
        var v := TrimSpace(line[eq + 1..]);
        if Wrapped(v) {
          if |v| < 2 {
            PanicIsFinal(lines, i);
            return SliceOutOfRange;
          }
          v := v[1..|v| - 1];
        }
        if k != "" {
          envMap := envMap[k := v];
        }
      }
    }
    assert lines[..|lines|] == lines;
    return Env(envMap);
  }

  lemma {:induction false} PanicIsFinal(lines: seq<Line>, i: nat)
    requires i < |lines| && lines[i].Panic?
    ensures EnvOf(lines) == SliceOutOfRange
  {
    if i < |lines| - 1 {
      PanicIsFinal(lines[..|lines| - 1], i);
    }
  }

  /* ---- meaning of a parse ---- */

  ghost predicate LastBinding(lines: seq<Line>, i: nat, k: string, v: string) {
    && i < |lines|
    && lines[i] == Bind(k, v)
    && forall j :: i < j < |lines| && lines[j].Bind? ==> lines[j].key != k
  }

  /** Every binding counts, and of several bindings of one key the last. */
  ghost predicate Means(lines: seq<Line>, env: map<string, string>) {
    && (forall i :: 0 <= i < |lines| && lines[i].Bind? ==> lines[i].key in env)
    && (forall k :: k in env ==> exists i: nat :: LastBinding(lines, i, k, env[k]))
  }

  ghost predicate Panics(lines: seq<Line>) {
    exists i :: 0 <= i < |lines| && lines[i].Panic?
  }

  /** A parse panics exactly when some line does, and otherwise means its lines. */
  lemma {:induction false} EnvMeaning(lines: seq<Line>)
    ensures EnvOf(lines).SliceOutOfRange? <==> Panics(lines)
    ensures EnvOf(lines).Env? ==> Means(lines, EnvOf(lines).env)
  {
    if lines != [] {
      var n := |lines| - 1;
      EnvMeaning(lines[..n]);
      if Panics(lines) {
        var i :| 0 <= i < |lines| && lines[i].Panic?;
        PanicIsFinal(lines, i);
      } else {
        assert !Panics(lines[..n]);
        MeansExtends(lines[..n], lines[n], EnvOf(lines[..n]).env);
        assert lines == lines[..n] + [lines[n]];
      }
    }
  }

  lemma MeansExtends(init: seq<Line>, line: Line, env: map<string, string>)
    requires Means(init, env)
    ensures Means(init + [line], if line.Bind? then env[line.key := line.value] else env)
  {
    var lines := init + [line];
    var env' := if line.Bind? then env[line.key := line.value] else env;
    forall k | k in env' ensures exists i: nat :: LastBinding(lines, i, k, env'[k]) {
      if line.Bind? && line.key == k {
        assert LastBinding(lines, |init|, k, env'[k]);
      } else {
        var i: nat :| LastBinding(init, i, k, env[k]);
        assert LastBinding(lines, i, k, env'[k]);
      }
    }
  }

  /* ---- the lone quote ---- */

  /** The text after the first equals sign of a line that is neither blank nor a comment, trimmed. */
  ghost predicate LoneQuoteLine(raw: string) {
    var line := TrimSpace(raw);
    && line != "" && line[0] != '#' && '=' in line
    && TrimSpace(line[IndexOf(line, '=') + 1..]) in {"\"", "\'"}
  }

  ghost predicate HasLoneQuote(texts: seq<string>) {
    exists i :: 0 <= i < |texts| && LoneQuoteLine(texts[i])
  }

  /** The request panics exactly when some line's value is a single quote character. */
  lemma PanicsIffLoneQuote(raw: string)
    ensures Parse(raw).SliceOutOfRange? <==> HasLoneQuote(Split(raw, '\n'))
  {
    var texts := Split(raw, '\n');
    EnvMeaning(ReadLines(texts));
    var lines := ReadLines(texts);
    forall i | 0 <= i < |texts| ensures lines[i].Panic? <==> LoneQuoteLine(texts[i]) {
      LoneQuote(texts[i]);
    }
    if Panics(lines) {
      var i :| 0 <= i < |lines| && lines[i].Panic?;
      assert LoneQuoteLine(texts[i]);
    }
  }

  lemma LoneQuote(raw: string)
    ensures ReadLine(raw).Panic? <==> LoneQuoteLine(raw)
  {
    var line := TrimSpace(raw);
    if line != "" && line[0] != '#' && '=' in line {
      var v := TrimSpace(line[IndexOf(line, '=') + 1..]);
      if |v| == 1 {
        assert v == [v[0]];
      }
    }
  }

  lemma LoneQuotePanics()
    ensures Parse("A='").SliceOutOfRange?
  {
    var line := "A='";
    IndexOfAfter("A", '=', "'");
    assert line == "A" + ['='] + "'" && line[2..] == "'";
    TrimSpaceFixed(line);
    TrimSpaceFixed("'");
    assert LoneQuoteLine(line);
    LoneQuote(line);
    SplitNone(line, '\n');
    PanicsIffLoneQuote(line);
    assert LoneQuoteLine(Split(line, '\n')[0]);
  }

  /* ---- single lines ---- */

  /** Exactly these lines bind nothing: blank ones, comments, those without an equals sign, and those
      without a key whose value does not make the parser panic. */
  lemma SkippedIff(raw: string)
    ensures ReadLine(raw).Skip? <==>
              var t := TrimSpace(raw);
              || t == "" || t[0] == '#' || '=' !in t
              || (t[0] == '=' && !LoneQuoteLine(raw))
  {
    var t := TrimSpace(raw);
    TrimSpaceTrims(raw);
    LoneQuote(raw);
    if t != "" && t[0] != '#' && '=' in t {
      var eq := IndexOf(t, '=');
      var left := t[..eq];
      if eq == 0 {
        assert left == "";
      } else {
        assert left[0] == t[0];
        TrimmedStart(left);
      }
    }
  }

  lemma TrimmedStart(s: string)
    requires s != "" && !IsSpace(s[0])
    ensures TrimSpace(s) != ""
  {
    var lead, tail := TrimSpaceSplits(s);
    assert TrimSpace(s) == "" ==> s == lead + tail && Blank(s);
    assert s[0] in s;
  }

  /** White space around key and value does not matter. */
  lemma SpacedPairReads(a: string, k: string, b: string, c: string, v: string, d: string)
    requires Blank(a) && Blank(b) && Blank(c) && Blank(d)
    requires k != "" && Trimmed(k) && '=' !in k && k[0] != '#' && Trimmed(v)
    ensures ReadLine(a + k + b + "=" + c + v + d) == ReadPair(k, v)
  {
    hide TrimSpace, ReadPair;
    var raw := a + k + b + "=" + c + v + d;
    if v == "" {
      var t := k + b + "=";
      assert raw == a + t + (c + d);
      assert t[0] == k[0];
      TrimSpaceUnique(a, t, c + d);
      TrimSpaceFixed("");
      assert t == (k + b) + ['='] + "";
      PairOfLine(raw, k, b, "");
    } else {
      var t := k + b + "=" + c + v;
      assert raw == a + t + d;
      assert t[0] == k[0] && t[|t| - 1] == v[|v| - 1];
      TrimSpaceUnique(a, t, d);
      assert c + v == c + v + "";
      TrimSpaceUnique(c, v, "");
      assert t == (k + b) + ['='] + (c + v);
      PairOfLine(raw, k, b, c + v);
    }
  }

  lemma PairOfLine(raw: string, k: string, b: string, right: string)
    requires TrimSpace(raw) == (k + b) + ['='] + right
    requires k != "" && Trimmed(k) && '=' !in k && k[0] != '#' && Blank(b)
    ensures ReadLine(raw) == ReadPair(k, TrimSpace(right))
  {
    hide TrimSpace, ReadPair, IndexOf;
    var t := TrimSpace(raw);
    assert '=' !in b;
    IndexOfAfter(k + b, '=', right);
    assert t[0] == k[0];
    assert t[..|k + b|] == k + b && t[|k + b| + 1..] == right;
    assert k + b == "" + k + b;
    TrimSpaceUnique("", k, b);
  }

  /** A value in single or double quotes is read without them, spaces inside included; quotes that do not
      match are part of the value. */
  lemma QuotesStripped(k: string, q: char, v: string, r: char)
    requires k != "" && Trimmed(k) && '=' !in k && k[0] != '#'
    requires q in {'\'', '\"'} && r in {'\'', '\"'}
    ensures ReadLine(k + "=" + [q] + v + [r]) == Bind(k, if q == r then v else [q] + v + [r])
  {
    hide ReadLine;
    var w := [q] + v + [r];
    assert k + "=" + [q] + v + [r] == "" + k + "" + "=" + "" + w + "";
    SpacedPairReads("", k, "", "", w, "");
    assert w[1..|w| - 1] == v;
  }

  /* ---- printing ---- */

  /** The line that the printer writes for one variable, with the carriage return a browser form adds. */
  function PrintLine(k: string, v: string, cr: bool): string {
    k + ['='] + v + (if cr then "\r" else "")
  }

  function Print(order: seq<string>, env: map<string, string>, cr: bool): string
    requires forall k :: k in order ==> k in env
  {
    if order == [] then ""
    else PrintLine(order[0], env[order[0]], cr) + ['\n'] + Print(order[1..], env, cr)
  }

  /** Any order in which a Go map with these keys may be iterated. */
  ghost predicate Enumerates(order: seq<string>, keys: set<string>) {
    && (forall k :: k in order <==> k in keys)
    && (forall i, j :: 0 <= i < j < |order| ==> order[i] != order[j])
  }

  predicate GoodKey(k: string) {
    k != "" && Trimmed(k) && '=' !in k && '\n' !in k && k[0] != '#'
  }

  predicate GoodValue(v: string) {
    Trimmed(v) && '\n' !in v && !Wrapped(v)
  }

  ghost predicate Clean(env: map<string, string>) {
    forall k :: k in env ==> GoodKey(k) && GoodValue(env[k])
  }

  /* ---- one line ---- */

  /** Whatever a newline-free line binds, the key is good and the value is newline-free. */
  lemma BoundKeyIsGood(raw: string)
    requires '\n' !in raw && ReadLine(raw).Bind?
    ensures GoodKey(ReadLine(raw).key) && '\n' !in ReadLine(raw).value
  {
    var line := TrimSpace(raw);
    TrimSpaceTrims(raw);
    var eq := IndexOf(line, '=');
    var left, right := line[..eq], line[eq + 1..];
    TrimSpaceTrims(left);
    TrimSpaceTrims(right);
    assert forall c :: c in left || c in right ==> c in line;
    var k := TrimSpace(left);
    assert left[0] == line[0];
    TrimRightIsPrefix(left);
    assert k[0] == left[..|k|][0];
    var v := TrimSpace(right);
    assert forall c :: c in Unquoted(v) ==> c in v;
  }

  /** A printed line with a good key reads back as that key with the trimmed, unquoted value. */
  lemma ReadPrinted(k: string, v: string, cr: bool)
    requires GoodKey(k)
    ensures ReadLine(PrintLine(k, v, cr)) == ReadPair(k, TrimSpace(v))
  {
    var end := if cr then "\r" else "";
    var raw := PrintLine(k, v, cr);
    var head := k + ['='];
    assert raw == head + (v + end);
    assert raw[0] == k[0];
    TrimRightKeeps(head, v + end);
    var value := TrimRight(v + end);
    var line := TrimSpace(raw);
    assert line == k + ['='] + value;
    IndexOfAfter(k, '=', value);
    assert line[..|k|] == k && line[|k| + 1..] == value;
    TrimSpaceFixed(k);
    var tail := TrimRightSplits(v + end);
    TrimSpaceIgnoresTail(value, tail);
    TrimSpaceIgnoresTail(v, end);
  }

  /** A line is read back exactly when its key and value are good ones. */
  lemma LineRoundTrip(k: string, v: string, cr: bool)
    requires GoodKey(k) && '\n' !in v
    ensures ReadLine(PrintLine(k, v, cr)) == Bind(k, v) <==> GoodValue(v)
  {
    ReadPrinted(k, v, cr);
    var t := TrimSpace(v);
    TrimSpaceTrims(v);
    var lead, tail := TrimSpaceSplits(v);
    assert |v| == |lead| + |t| + |tail|;
    if Trimmed(v) {
      TrimSpaceFixed(v);
    }
  }

  /* ---- the whole text ---- */

  ghost function Lines(order: seq<string>, env: map<string, string>, cr: bool): (r: seq<string>)
    requires forall k :: k in order ==> k in env
    ensures |r| == |order| + 1
    ensures forall i :: 0 <= i < |order| ==> r[i] == PrintLine(order[i], env[order[i]], cr)
    ensures r[|order|] == ""
  {
    if order == [] then [""] else [PrintLine(order[0], env[order[0]], cr)] + Lines(order[1..], env, cr)
  }

  lemma {:induction false} PrintedLines(order: seq<string>, env: map<string, string>, cr: bool)
    requires forall k :: k in order ==> k in env && '\n' !in k && '\n' !in env[k]
    ensures Split(Print(order, env, cr), '\n') == Lines(order, env, cr)
  {
    if order != [] {
      PrintedLines(order[1..], env, cr);
      SplitCons(PrintLine(order[0], env[order[0]], cr), '\n', Print(order[1..], env, cr));
    }
  }

  /** What the printed lines read as when every key is good: one binding or panic a line, then nothing. */
  ghost predicate ReadsInOrder(lines: seq<Line>, order: seq<string>, env: map<string, string>)
    requires forall k :: k in order ==> k in env
  {
    && |lines| == |order| + 1
    && (forall i :: 0 <= i < |order| ==> lines[i].Panic? || (lines[i].Bind? && lines[i].key == order[i]))
    && (forall i :: 0 <= i < |order| ==> (lines[i] == Bind(order[i], env[order[i]]) <==> GoodValue(env[order[i]])))
    && lines[|order|] == Skip
  }

  lemma PrintedReadsInOrder(order: seq<string>, env: map<string, string>, cr: bool)
    requires forall k :: k in order ==> k in env && GoodKey(k) && '\n' !in env[k]
    ensures ReadsInOrder(ReadLines(Split(Print(order, env, cr), '\n')), order, env)
  {
    PrintedLines(order, env, cr);
    var texts := Lines(order, env, cr);
    forall i | 0 <= i < |order|
      ensures ReadLine(texts[i]) == ReadPair(order[i], TrimSpace(env[order[i]]))
      ensures ReadLine(texts[i]) == Bind(order[i], env[order[i]]) <==> GoodValue(env[order[i]])
    {
      assert order[i] in order;
      ReadPrinted(order[i], env[order[i]], cr);
      LineRoundTrip(order[i], env[order[i]], cr);
    }
  }

  /** Distinct keys: each variable's own line is the only one that binds it. */
  lemma OwnLineDecides(lines: seq<Line>, order: seq<string>, env: map<string, string>, parsed: map<string, string>, i: nat)
    requires Enumerates(order, env.Keys) && i < |order|
    requires ReadsInOrder(lines, order, env) && !Panics(lines)
    requires Means(lines, parsed)
    ensures order[i] in parsed && lines[i] == Bind(order[i], parsed[order[i]])
  {
    var k := order[i];
    assert !lines[i].Panic?;
    var j: nat :| LastBinding(lines, j, k, parsed[k]);
    assert j < |order| && order[j] == k;
  }

  lemma GoodLinesMean(lines: seq<Line>, order: seq<string>, env: map<string, string>, parsed: map<string, string>)
    requires Enumerates(order, env.Keys) && Clean(env)
    requires ReadsInOrder(lines, order, env) && !Panics(lines)
    requires Means(lines, parsed)
    ensures parsed == env
  {
    forall k | k in env ensures k in parsed && parsed[k] == env[k] {
      assert k in order;
      var i :| 0 <= i < |order| && order[i] == k;
      OwnLineDecides(lines, order, env, parsed, i);
    }
    forall k | k in parsed ensures k in env {
      var j: nat :| LastBinding(lines, j, k, parsed[k]);
      assert j < |order| && order[j] in order;
    }
  }

  lemma CleanNeverPanics(lines: seq<Line>, order: seq<string>, env: map<string, string>)
    requires Enumerates(order, env.Keys) && Clean(env)
    requires ReadsInOrder(lines, order, env)
    ensures !Panics(lines)
  {
    forall i | 0 <= i < |lines| ensures !lines[i].Panic? {
      if i < |order| {
        assert order[i] in order;
      }
    }
  }

  lemma GoodTextParses(order: seq<string>, env: map<string, string>, cr: bool)
    requires Enumerates(order, env.Keys) && Clean(env)
    ensures Parse(Print(order, env, cr)) == Env(env)
  {
    var lines := ReadLines(Split(Print(order, env, cr), '\n'));
    PrintedReadsInOrder(order, env, cr);
    EnvMeaning(lines);
    CleanNeverPanics(lines, order, env);
    GoodLinesMean(lines, order, env, EnvOf(lines).env);
  }

  /** If a text parses, the keys are good and nothing in the result holds a newline. */
  lemma ParsedIsTidy(texts: seq<string>, env: map<string, string>)
    requires Means(ReadLines(texts), env)
    requires forall l :: l in texts ==> '\n' !in l
    ensures forall k :: k in env ==> GoodKey(k) && '\n' !in env[k]
  {
    forall k | k in env ensures GoodKey(k) && '\n' !in env[k] {
      var i: nat :| LastBinding(ReadLines(texts), i, k, env[k]);
      assert texts[i] in texts;
      BoundKeyIsGood(texts[i]);
    }
  }

  lemma ParsedBackIsClean(order: seq<string>, env: map<string, string>, cr: bool)
    requires Enumerates(order, env.Keys)
    requires Parse(Print(order, env, cr)) == Env(env)
    ensures Clean(env)
  {
    var texts := Split(Print(order, env, cr), '\n');
    var lines := ReadLines(texts);
    EnvMeaning(lines);
    ParsedIsTidy(texts, env);
    PrintedReadsInOrder(order, env, cr);
    forall k | k in env ensures GoodValue(env[k]) {
      assert k in order;
      var i :| 0 <= i < |order| && order[i] == k;
      OwnLineDecides(lines, order, env, env, i);
    }
  }

  /** Printing an environment in any order and parsing the text returns the same environment if and
      only if every key is non-empty, trimmed, free of `=`, newlines and a leading `#`, and every value
      is trimmed, newline-free and not wrapped in quotes. */
  lemma EnvRoundTrip(order: seq<string>, env: map<string, string>, cr: bool)
    requires Enumerates(order, env.Keys)
    ensures Parse(Print(order, env, cr)) == Env(env) <==> Clean(env)
  {
    if Clean(env) {
      GoodTextParses(order, env, cr);
    }
    if Parse(Print(order, env, cr)) == Env(env) {
      ParsedBackIsClean(order, env, cr);
    }
  }
}
