/** The dev-setup script's env files: parse, fill in what is blank, print. */
module EnvFile {
  import opened Sequences
  import Sorting
  import opened Text

  type EnvMap = map<string, string>

  // ---------------------------------------------------------------- lines

  /** What `.` does not match. */
  predicate Terminator(c: char) {
    c == '\n' || c == '\r' || c == '\U{2028}' || c == '\U{2029}'
  }

  predicate OneLine(s: string) {
    forall c | c in s :: !Terminator(c)
  }

  /** `[A-Z0-9_]` */
  predicate KeyChar(c: char) {
    'A' <= c <= 'Z' || '0' <= c <= '9' || c == '_'
  }

  predicate LegalKey(k: string) {
    k != "" && forall c | c in k :: KeyChar(c)
  }

  function StripReturn(line: string): string {
    if line != "" && line[|line| - 1] == '\r' then line[..|line| - 1] else line
  }

  function StripReturns(lines: seq<string>): (r: seq<string>)
    ensures |r| == |lines|
  {
    if lines == [] then [] else StripReturns(lines[..|lines| - 1]) + [StripReturn(lines[|lines| - 1])]
  }

  /** `text.split(/\r?\n/)`: a return goes with the newline after it. */
  function SplitLines(text: string): seq<string> {
    var pieces := Split('\n', text);
    StripReturns(pieces[..|pieces| - 1]) + [pieces[|pieces| - 1]]
  }

  /** How many characters of the line are key characters, from its start. */
  function KeyLength(line: string): (n: nat)
    ensures n <= |line|
  {
    if line == "" || !KeyChar(line[0]) then 0 else 1 + KeyLength(line[1..])
  }

  /** `(v.startsWith(q) && v.endsWith(q))` for either quote. */
  predicate Quoted(v: string) {
    v != "" && v[0] == v[|v| - 1] && (v[0] == '"' || v[0] == '\'')
  }

  /** `v.slice(1, -1)`, which is empty for a lone quote. */
  function Unquote(v: string): string {
    if !Quoted(v) then v else if |v| == 1 then "" else v[1..|v| - 1]
  }

  function ReadValue(raw: string): string {
    Unquote(Trim(raw))
  }

  datatype Entry = Entry(key: string, value: string)

  /** `/^([A-Z0-9_]+)=(.*)$/` */
  function ParseLine(line: string): Option<Entry> {
    var n := KeyLength(line);
    if 0 < n < |line| && line[n] == '=' && OneLine(line[n + 1..])
    then Some(Entry(line[..n], ReadValue(line[n + 1..])))
    else None
  }

  function Put(env: EnvMap, e: Option<Entry>): EnvMap {
    if e.Some? then env[e.value.key := e.value.value] else env
  }

  function ParseInto(env: EnvMap, lines: seq<string>): EnvMap {
    if lines == [] then env else Put(ParseInto(env, lines[..|lines| - 1]), ParseLine(lines[|lines| - 1]))
  }

  function Parsed(text: string): EnvMap {
    ParseInto(map[], SplitLines(text))
  }

  lemma ParseMore(env: EnvMap, lines: seq<string>, i: nat)
    requires i < |lines|
    ensures ParseInto(env, lines[..i + 1]) == Put(ParseInto(env, lines[..i]), ParseLine(lines[i]))
  {
    assert lines[..i + 1][..i] == lines[..i];
  }

  method ParseEnv(text: string) returns (out: EnvMap)
    ensures out == Parsed(text)
  {
    out := map[];
    var lines := SplitLines(text);
    for i := 0 to |lines|
      invariant out == ParseInto(map[], lines[..i])
    {
      ParseMore(map[], lines, i);
      var m := ParseLine(lines[i]);
      if m.Some? {
        out := out[m.value.key := m.value.value];
      }
    }
    Whole(lines);
  }

  // ---------------------------------------------------------------- printing

  function Line(k: string, v: string): string {
    k + "=" + v
  }

  /** The keys as printed: those of `order` that are there, then the others as they come. */
  function Ordered(env: EnvMap, order: seq<string>): seq<string> {
    if order == [] then []
    else Ordered(env, order[..|order| - 1]) + if order[|order| - 1] in env then [order[|order| - 1]] else []
  }

  function Others(order: seq<string>, keys: seq<string>): seq<string> {
    if keys == [] then []
    else Others(order, keys[..|keys| - 1]) + if keys[|keys| - 1] in order then [] else [keys[|keys| - 1]]
  }

  function Printed(env: EnvMap, order: seq<string>, keys: seq<string>): seq<string> {
    Ordered(env, order) + Others(order, keys)
  }

  /** `keys` lists the map as `Object.entries` does: every key, once. */
  ghost predicate Lists(keys: seq<string>, env: EnvMap) {
    (forall k :: k in keys <==> k in env) && Sorting.Distinct(keys)
  }

  function Get(env: EnvMap, k: string): string {
    if k in env then env[k] else ""
  }

  function LinesFor(env: EnvMap, keys: seq<string>): seq<string> {
    if keys == [] then [] else LinesFor(env, keys[..|keys| - 1]) + [Line(keys[|keys| - 1], Get(env, keys[|keys| - 1]))]
  }

  /** The header, a blank line, one line per key, each ended by a newline. */
  function Serialized(env: EnvMap, header: string, order: seq<string>, keys: seq<string>): string {
    Join('\n', [header, ""] + LinesFor(env, Printed(env, order, keys))) + "\n"
  }

  lemma LinesMore(env: EnvMap, keys: seq<string>, k: string)
    ensures LinesFor(env, keys + [k]) == LinesFor(env, keys) + [Line(k, Get(env, k))]
  {
    DropLast(keys, k);
  }

  lemma OrderedNext(env: EnvMap, order: seq<string>, i: nat)
    requires i < |order|
    ensures Ordered(env, order[..i + 1]) == Ordered(env, order[..i]) + if order[i] in env then [order[i]] else []
  {
    assert order[..i + 1][..i] == order[..i];
  }

  lemma OthersNext(order: seq<string>, keys: seq<string>, i: nat)
    requires i < |keys|
    ensures Others(order, keys[..i + 1]) == Others(order, keys[..i]) + if keys[i] in order then [] else [keys[i]]
  {
    assert keys[..i + 1][..i] == keys[..i];
  }

  method SerializeEnv(env: EnvMap, header: string, order: seq<string>, keys: seq<string>) returns (text: string)
    requires Lists(keys, env)
    ensures text == Serialized(env, header, order, keys)
  {
    var lines := [header, ""];
    var seen: set<string> := {};
    Nothing(lines);
    for i := 0 to |order|
      invariant lines == [header, ""] + LinesFor(env, Ordered(env, order[..i]))
      invariant forall k :: k in seen <==> k in order[..i] && k in env
    {
      OrderedNext(env, order, i);
      var k := order[i];
      assert order[..i + 1] == order[..i] + [k];
      Nothing(Ordered(env, order[..i]));
      if k in env {
        LinesMore(env, Ordered(env, order[..i]), k);
        Assoc([header, ""], LinesFor(env, Ordered(env, order[..i])), [Line(k, env[k])]);
        lines := lines + [Line(k, env[k])];
        seen := seen + {k};
      }
    }
    Whole(order);
    ghost var first := Ordered(env, order);
    Nothing(first);
    for i := 0 to |keys|
      invariant lines == [header, ""] + LinesFor(env, first + Others(order, keys[..i]))
    {
      OthersNext(order, keys, i);
      var k := keys[i];
      ghost var before := Others(order, keys[..i]);
      Nothing(before);
      assert k in env;
      if k !in seen {
        Assoc(first, before, [k]);
        LinesMore(env, first + before, k);
        Assoc([header, ""], LinesFor(env, first + before), [Line(k, env[k])]);
        lines := lines + [Line(k, env[k])];
      }
    }
    Whole(keys);
    text := Join('\n', lines) + "\n";
  }

  lemma {:induction false} PrintedAreKeys(env: EnvMap, order: seq<string>, keys: seq<string>)
    requires Lists(keys, env)
    ensures forall k :: k in Printed(env, order, keys) <==> k in env
  {
    OrderedMembers(env, order);
    OthersMembers(order, keys);
  }

  lemma {:induction false} OrderedMembers(env: EnvMap, order: seq<string>)
    ensures forall k :: k in Ordered(env, order) <==> k in order && k in env
  {
    if order != [] {
      OrderedMembers(env, order[..|order| - 1]);
      Snoc(order);
    }
  }

  lemma {:induction false} OthersMembers(order: seq<string>, keys: seq<string>)
    ensures forall k :: k in Others(order, keys) <==> k in keys && k !in order
  {
    if keys != [] {
      OthersMembers(order, keys[..|keys| - 1]);
      Snoc(keys);
    }
  }

  // ---------------------------------------------------------------- the round trip

  lemma {:induction false} KeyLengthOf(k: string, rest: string)
    requires forall c | c in k :: KeyChar(c)
    requires rest != "" && !KeyChar(rest[0])
    ensures KeyLength(k + rest) == |k|
  {
    if k == "" {
      Nothing(rest);
    } else {
      assert (k + rest)[1..] == k[1..] + rest;
      KeyLengthOf(k[1..], rest);
    }
  }

  lemma PrintedLineParses(k: string, v: string)
    requires LegalKey(k) && OneLine(v)
    ensures ParseLine(Line(k, v)) == Some(Entry(k, ReadValue(v)))
  {
    Assoc(k, "=", v);
    KeyLengthOf(k, "=" + v);
    var line := Line(k, v);
    assert line[..|k|] == k && line[|k|] == '=' && line[|k| + 1..] == v;
  }

  lemma {:induction false} KeyLengthChars(line: string)
    ensures forall i | 0 <= i < KeyLength(line) :: KeyChar(line[i])
  {
    if line != "" && KeyChar(line[0]) {
      KeyLengthChars(line[1..]);
      forall i | 0 <= i < KeyLength(line) ensures KeyChar(line[i]) {
        assert i > 0 ==> line[i] == line[1..][i - 1];
      }
    }
  }

  lemma TrimWithin(s: string)
    ensures forall c | c in Trim(s) :: c in s
  {
    var l := TrimLeft(s);
    assert forall c | c in l :: c in s;
    assert forall c | c in TrimRight(l) :: c in l;
  }

  lemma ReadValueOneLine(raw: string)
    requires OneLine(raw)
    ensures OneLine(ReadValue(raw))
  {
    TrimWithin(raw);
    WithinOneLine(raw, Trim(raw));
    UnquoteWithin(Trim(raw));
    WithinOneLine(Trim(raw), ReadValue(raw));
  }

  lemma WithinOneLine(s: string, part: string)
    requires OneLine(s) && forall c | c in part :: c in s
    ensures OneLine(part)
  {
  }

  lemma UnquoteWithin(v: string)
    ensures forall c | c in Unquote(v) :: c in v
  {
  }

  /** Whatever is parsed, its key is legal and its value has no line terminator. */
  lemma ParsedEntryIsLegal(line: string)
    ensures ParseLine(line).Some? ==> LegalKey(ParseLine(line).value.key) && OneLine(ParseLine(line).value.value)
  {
    KeyLengthChars(line);
    var n := KeyLength(line);
    if ParseLine(line).Some? {
      ReadValueOneLine(line[n + 1..]);
    }
  }

  ghost predicate AllLegal(env: EnvMap) {
    forall k | k in env :: LegalKey(k) && OneLine(env[k])
  }

  lemma {:induction false} ParsedIsLegal(env: EnvMap, lines: seq<string>)
    requires AllLegal(env)
    ensures AllLegal(ParseInto(env, lines))
  {
    if lines != [] {
      ParsedIsLegal(env, lines[..|lines| - 1]);
      ParsedEntryIsLegal(lines[|lines| - 1]);
    }
  }

  lemma ParseSnoc(env: EnvMap, lines: seq<string>, line: string)
    ensures ParseInto(env, lines + [line]) == Put(ParseInto(env, lines), ParseLine(line))
  {
    DropLast(lines, line);
  }

  lemma {:induction false} ParseOfConcat(env: EnvMap, a: seq<string>, b: seq<string>)
    ensures ParseInto(env, a + b) == ParseInto(ParseInto(env, a), b)
  {
    if b == [] {
      Nothing(a);
    } else {
      var n := |b| - 1;
      ParseOfConcat(env, a, b[..n]);
      Snoc(b);
      Assoc(a, b[..n], [b[n]]);
      ParseSnoc(env, a + b[..n], b[n]);
    }
  }

  lemma PutOne(read: EnvMap, e: Option<Entry>, key: string, value: string)
    requires e == Some(Entry(key, value))
    ensures Put(read, e) == read[key := value]
  {
  }

  /** The map that gives each of `keys` what `f` makes of its value. */
  function Through(f: string -> string, env: EnvMap, keys: seq<string>): EnvMap {
    if keys == [] then map[]
    else Through(f, env, keys[..|keys| - 1])[keys[|keys| - 1] := f(Get(env, keys[|keys| - 1]))]
  }

  lemma {:induction false} ThroughAt(f: string -> string, env: EnvMap, keys: seq<string>, k: string)
    ensures var m := Through(f, env, keys); (k in m <==> k in keys) && (k in m ==> m[k] == f(Get(env, k)))
  {
    if keys != [] {
      Snoc(keys);
      ThroughAt(f, env, keys[..|keys| - 1], k);
    }
  }

  lemma {:induction false} PrintedLinesParse(f: string -> string, env: EnvMap, keys: seq<string>)
    requires AllLegal(env) && forall x | x in keys :: x in env
    requires forall v :: f(v) == ReadValue(v)
    ensures ParseInto(map[], LinesFor(env, keys)) == Through(f, env, keys)
  {
    if keys != [] {
      var n := |keys| - 1;
      Snoc(keys);
      assert keys[n] in keys;
      PrintedLinesParse(f, env, keys[..n]);
      var lines := LinesFor(env, keys[..n]);
      var line := Line(keys[n], env[keys[n]]);
      ParseSnoc(map[], lines, line);
      PrintedLineParses(keys[n], env[keys[n]]);
      PutOne(ParseInto(map[], lines), ParseLine(line), keys[n], f(env[keys[n]]));
    }
  }

  lemma {:induction false} StripOfConcat(a: seq<string>, b: seq<string>)
    ensures StripReturns(a + b) == StripReturns(a) + StripReturns(b)
  {
    if b == [] {
      Nothing(a);
      Nothing(StripReturns(a));
    } else {
      var n := |b| - 1;
      StripOfConcat(a, b[..n]);
      Snoc(b);
      Assoc(a, b[..n], [b[n]]);
      DropLast(a + b[..n], b[n]);
      Assoc(StripReturns(a), StripReturns(b[..n]), [StripReturn(b[n])]);
    }
  }

  lemma NoReturn(line: string)
    requires OneLine(line)
    ensures StripReturn(line) == line
  {
    if line != "" {
      assert line[|line| - 1] in line;
    }
  }

  lemma {:induction false} NothingToStrip(lines: seq<string>)
    requires forall l | l in lines :: OneLine(l)
    ensures StripReturns(lines) == lines
  {
    if lines != [] {
      Snoc(lines);
      assert lines[|lines| - 1] in lines;
      NoReturn(lines[|lines| - 1]);
      NothingToStrip(lines[..|lines| - 1]);
    }
  }

  lemma {:induction false} LinesAreOneLine(env: EnvMap, keys: seq<string>)
    requires AllLegal(env) && forall x | x in keys :: x in env
    ensures forall l | l in LinesFor(env, keys) :: OneLine(l)
  {
    if keys != [] {
      Snoc(keys);
      LinesAreOneLine(env, keys[..|keys| - 1]);
    }
  }

  lemma {:induction false} JoinFront(sep: char, x: string, rest: seq<string>)
    requires |rest| >= 1
    ensures Join(sep, [x] + rest) == x + [sep] + Join(sep, rest)
  {
    var n := |rest| - 1;
    if n == 0 {
      JoinMore(sep, [x], rest[0]);
      assert [x] + rest == [x] + [rest[0]];
    } else {
      JoinFront(sep, x, rest[..n]);
      Snoc(rest);
      Assoc([x], rest[..n], [rest[n]]);
      JoinMore(sep, [x] + rest[..n], rest[n]);
      Assoc(x + [sep], Join(sep, rest[..n]), [sep] + rest[n]);
      Assoc(Join(sep, rest[..n]), [sep], rest[n]);
      Assoc(x + [sep] + Join(sep, rest[..n]), [sep], rest[n]);
    }
  }

  /** A printed text, cut where its header ends. */
  lemma PrintedText(header: string, rest: seq<string>)
    requires |rest| >= 1
    ensures Join('\n', [header] + rest) + "\n" == (header + ['\n']) + Join('\n', rest + [""])
  {
    JoinMore('\n', [header] + rest, "");
    Nothing(Join('\n', [header] + rest) + ['\n']);
    Assoc([header], rest, [""]);
    JoinFront('\n', header, rest + [""]);
  }

  lemma NewlineBreaksLine(line: string)
    requires '\n' in line
    ensures !OneLine(line)
  {
    assert Terminator('\n');
  }

  lemma PiecesOfPrinted(header: string, rest: seq<string>)
    requires |rest| >= 1 && forall l | l in rest :: OneLine(l)
    ensures Split('\n', Join('\n', [header] + rest) + "\n") == Split('\n', header) + rest + [""]
  {
    var head := Split('\n', header);
    PrintedText(header, rest);
    SplitMore('\n', header, '\n');
    SplitOpen('\n', header + ['\n'], head, "", Join('\n', rest + [""]));
    Nothing(Join('\n', rest + [""]));
    forall i | 0 <= i < |rest + [""]| ensures '\n' !in (rest + [""])[i] {
      if i < |rest| {
        assert rest[i] in rest;
        if '\n' in rest[i] {
          NewlineBreaksLine(rest[i]);
          assert false;
        }
      }
    }
    SplitOfJoin('\n', rest + [""]);
    Assoc(head, rest, [""]);
  }

  /** The lines of a printed text: the header's, and then the rest one by one. */
  lemma LinesOfPrinted(header: string, rest: seq<string>)
    requires |rest| >= 1 && forall l | l in rest :: OneLine(l)
    ensures SplitLines(Join('\n', [header] + rest) + "\n") == StripReturns(Split('\n', header)) + rest + [""]
  {
    var head := Split('\n', header);
    PiecesOfPrinted(header, rest);
    DropLast(head + rest, "");
    StripOfConcat(head, rest);
    NothingToStrip(rest);
  }

  /** A header that sets nothing. */
  predicate Neutral(header: string) {
    Parsed(header + "\n") == map[]
  }

  lemma NeutralLines(header: string)
    requires Neutral(header)
    ensures ParseInto(map[], StripReturns(Split('\n', header))) == map[]
  {
    var head := Split('\n', header);
    SplitMore('\n', header, '\n');
    DropLast(head, "");
    ParseSnoc(map[], StripReturns(head), "");
  }

  /** What follows a neutral header decides what is read. */
  lemma ReadsRest(header: string, lines: seq<string>)
    requires Neutral(header) && forall l | l in lines :: OneLine(l)
    ensures Parsed(Join('\n', [header, ""] + lines) + "\n") == ParseInto(map[], lines)
  {
    var rest := [""] + lines;
    var head := StripReturns(Split('\n', header));
    assert [header, ""] + lines == [header] + rest;
    LinesOfPrinted(header, rest);
    NeutralLines(header);
    ParseSnoc(map[], head + rest, "");
    ParseOfConcat(map[], head, rest);
    ParseOfConcat(map[], [""], lines);
    ParseSnoc(map[], [], "");
    Nothing([""]);
  }

  /** What a printed map reads back as, key by key. */
  lemma ReadsBack(env: EnvMap, header: string, order: seq<string>, keys: seq<string>, k: string)
    requires Lists(keys, env) && Neutral(header) && AllLegal(env)
    ensures var read := Parsed(Serialized(env, header, order, keys));
            (k in read <==> k in env) && (k in env ==> read[k] == ReadValue(env[k]))
  {
    var printed := Printed(env, order, keys);
    PrintedAreKeys(env, order, keys);
    LinesAreOneLine(env, printed);
    ReadsRest(header, LinesFor(env, printed));
    var f := (v: string) => ReadValue(v);
    PrintedLinesParse(f, env, printed);
    ThroughAt(f, env, printed, k);
  }

  /** A value the format can hold: on one line, trimmed, not in quotes. */
  predicate Plain(v: string) {
    OneLine(v) && IsTrimmed(v) && !Quoted(v)
  }

  lemma ReadValueFixes(v: string)
    ensures ReadValue(v) == v <==> IsTrimmed(v) && !Quoted(v)
  {
    TrimFixesTrimmed(v);
    assert |Trim(v)| <= |v|;
    if Trim(v) != v {
      TrimShorter(v);
    }
  }

  lemma TrimShorter(v: string)
    ensures |Trim(v)| <= |v| && (|Trim(v)| == |v| ==> Trim(v) == v)
  {
    var l := TrimLeft(v);
    if |TrimRight(l)| == |v| {
      assert l == v[0..];
    }
  }

  /** Printing and parsing gives the map back exactly when its keys are legal and its values
      plain. */
  lemma RoundTripIff(env: EnvMap, header: string, order: seq<string>, keys: seq<string>)
    requires Lists(keys, env) && Neutral(header)
    ensures Parsed(Serialized(env, header, order, keys)) == env
            <==> forall k | k in env :: LegalKey(k) && Plain(env[k])
  {
    var read := Parsed(Serialized(env, header, order, keys));
    ParsedIsLegal(map[], SplitLines(Serialized(env, header, order, keys)));
    if AllLegal(env) {
      forall k ensures (k in read <==> k in env) && (k in env ==> (read[k] == env[k] <==> Plain(env[k]))) {
        ReadsBack(env, header, order, keys, k);
        if k in env {
          ReadValueFixes(env[k]);
        }
      }
    }
  }

  /** A comment without a newline sets nothing. */
  lemma CommentIsNeutral(header: string)
    requires header != "" && header[0] == '#' && '\n' !in header
    ensures Neutral(header)
  {
    var line := StripReturn(header);
    SplitWhole('\n', header);
    SplitMore('\n', header, '\n');
    assert [header, ""][..1] == [header];
    assert StripReturns([header]) == [line] by { assert [header][..0] == []; }
    assert line[0] == '#' && KeyLength(line) == 0;
    ParseSnoc(map[], [], line);
    Nothing([line]);
    ParseSnoc(map[], [line], "");
  }

  lemma DistinctMore(keys: seq<string>, k: string)
    ensures Sorting.Distinct(keys + [k]) <==> Sorting.Distinct(keys) && k !in keys
  {
    var more := keys + [k];
    assert forall i | 0 <= i < |keys| :: more[i] == keys[i];
    if k in keys {
      var i :| 0 <= i < |keys| && keys[i] == k;
      assert more[i] == more[|keys|];
    }
    if !Sorting.Distinct(keys) {
      var i, j :| 0 <= i < j < |keys| && keys[i] == keys[j];
      assert more[i] == more[j];
    }
  }

  /** No key of the map stands twice in the order. */
  ghost predicate NamesOnce(env: EnvMap, order: seq<string>) {
    forall i, j | 0 <= i < j < |order| && order[i] == order[j] :: order[i] !in env
  }

  lemma NamesOnceMore(env: EnvMap, order: seq<string>, k: string)
    ensures NamesOnce(env, order + [k]) <==> NamesOnce(env, order) && !(k in order && k in env)
  {
    var more := order + [k];
    assert forall i | 0 <= i < |order| :: more[i] == order[i];
    if k in order && k in env {
      var i :| 0 <= i < |order| && order[i] == k;
      assert more[i] == more[|order|];
    }
    if !NamesOnce(env, order) {
      var i, j :| 0 <= i < j < |order| && order[i] == order[j] && order[i] in env;
      assert more[i] == more[j];
    }
  }

  lemma {:induction false} OrderedDistinctIff(env: EnvMap, order: seq<string>)
    ensures Sorting.Distinct(Ordered(env, order)) <==> NamesOnce(env, order)
  {
    if order != [] {
      var n := |order| - 1;
      OrderedDistinctIff(env, order[..n]);
      OrderedMembers(env, order[..n]);
      DistinctMore(Ordered(env, order[..n]), order[n]);
      Nothing(Ordered(env, order[..n]));
      NamesOnceMore(env, order[..n], order[n]);
      Snoc(order);
    }
  }

  lemma {:induction false} OthersKeepDistinct(env: EnvMap, first: seq<string>, order: seq<string>, keys: seq<string>)
    requires Sorting.Distinct(keys) && forall k | k in first :: k in order
    ensures Sorting.Distinct(first + Others(order, keys)) <==> Sorting.Distinct(first)
  {
    Nothing(first);
    if keys != [] {
      var n := |keys| - 1;
      var others := Others(order, keys[..n]);
      OthersKeepDistinct(env, first, order, keys[..n]);
      OthersMembers(order, keys[..n]);
      Nothing(others);
      if keys[n] !in order {
        Assoc(first, others, [keys[n]]);
        DistinctMore(first + others, keys[n]);
      }
    }
  }

  /** Each key is printed once, exactly when the order names no key of the map twice. */
  lemma PrintedOnceIff(env: EnvMap, order: seq<string>, keys: seq<string>)
    requires Lists(keys, env)
    ensures Sorting.Distinct(Printed(env, order, keys)) <==> NamesOnce(env, order)
    ensures forall k :: k in Printed(env, order, keys) <==> k in env
  {
    PrintedAreKeys(env, order, keys);
    OrderedMembers(env, order);
    OrderedDistinctIff(env, order);
    OthersKeepDistinct(env, Ordered(env, order), order, keys);
  }

  // ---------------------------------------------------------------- filling in

  predicate Blank(env: EnvMap, k: string) {
    k !in env || env[k] == ""
  }

  function Fill(env: EnvMap, defaults: seq<Entry>): EnvMap {
    if defaults == [] then env
    else
      var before, d := Fill(env, defaults[..|defaults| - 1]), defaults[|defaults| - 1];
      if Blank(before, d.key) then before[d.key := d.value] else before
  }

  function Filled(env: EnvMap, defaults: seq<Entry>): seq<string> {
    if defaults == [] then []
    else
      var before, d := Fill(env, defaults[..|defaults| - 1]), defaults[|defaults| - 1];
      Filled(env, defaults[..|defaults| - 1]) + if Blank(before, d.key) then [d.key] else []
  }

  method FillBlanks(env: EnvMap, defaults: seq<Entry>) returns (out: EnvMap, filled: seq<string>)
    ensures out == Fill(env, defaults) && filled == Filled(env, defaults)
  {
    out, filled := env, [];
    for i := 0 to |defaults|
      invariant out == Fill(env, defaults[..i]) && filled == Filled(env, defaults[..i])
    {
      assert defaults[..i + 1][..i] == defaults[..i];
      var d := defaults[i];
      if d.key !in out || out[d.key] == "" {
        out := out[d.key := d.value];
        filled := filled + [d.key];
      }
    }
    Whole(defaults);
  }

  /** The defaults are one object's entries. */
  ghost predicate KeysDistinct(defaults: seq<Entry>) {
    forall i, j | 0 <= i < j < |defaults| :: defaults[i].key != defaults[j].key
  }

  /** A blank key with a default gets it; nothing else changes, and exactly those keys are
      reported. */
  lemma {:induction false} FillIs(env: EnvMap, defaults: seq<Entry>, k: string)
    requires KeysDistinct(defaults)
    ensures var out := Fill(env, defaults);
            && (k in out <==> k in env || exists d :: d in defaults && d.key == k)
            && (!Blank(env, k) ==> out[k] == env[k])
            && (forall d | d in defaults && d.key == k && Blank(env, k) :: out[k] == d.value)
            && (k in env && (forall d | d in defaults :: d.key != k) ==> out[k] == env[k])
    ensures k in Filled(env, defaults) <==> Blank(env, k) && exists d :: d in defaults && d.key == k
  {
    if defaults != [] {
      var n := |defaults| - 1;
      Snoc(defaults);
      FillIs(env, defaults[..n], k);
      assert defaults[n] in defaults && forall d | d in defaults[..n] :: d.key != defaults[n].key;
    }
  }

  lemma {:induction false} FillStaysLegal(env: EnvMap, defaults: seq<Entry>)
    requires AllLegal(env) && forall d | d in defaults :: LegalKey(d.key) && OneLine(d.value)
    ensures AllLegal(Fill(env, defaults))
  {
    if defaults != [] {
      Snoc(defaults);
      assert defaults[|defaults| - 1] in defaults;
      FillStaysLegal(env, defaults[..|defaults| - 1]);
    }
  }

  /** Read, fill, write, and do it again: the second time fills nothing, exactly when everything
      written for a default reads back as something. */
  lemma SecondFillIff(old0: string, defaults: seq<Entry>, header: string, order: seq<string>, keys: seq<string>)
    requires KeysDistinct(defaults) && forall d | d in defaults :: LegalKey(d.key) && OneLine(d.value)
    requires Neutral(header) && Lists(keys, Fill(Parsed(old0), defaults))
    ensures var first := Fill(Parsed(old0), defaults);
            Filled(Parsed(Serialized(first, header, order, keys)), defaults) == []
            <==> forall d | d in defaults :: ReadValue(Get(first, d.key)) != ""
  {
    var first := Fill(Parsed(old0), defaults);
    ParsedIsLegal(map[], SplitLines(old0));
    FillStaysLegal(Parsed(old0), defaults);
    var again := Parsed(Serialized(first, header, order, keys));
    forall d | d in defaults ensures Blank(again, d.key) <==> ReadValue(Get(first, d.key)) == "" {
      FillIs(Parsed(old0), defaults, d.key);
      ReadsBack(first, header, order, keys, d.key);
    }
    if Filled(again, defaults) != [] {
      var k := Filled(again, defaults)[0];
      FillIs(again, defaults, k);
    }
    if d :| d in defaults && ReadValue(Get(first, d.key)) == "" {
      FillIs(again, defaults, d.key);
    }
  }

  /** The shipped default of `EMAIL_FROM`. */
  const EMAIL_FROM := "\"Antgrid <no-reply@radhaai.org>\""

  /** The shipped default is in quotes, so a map that holds it does not survive a round trip: the
      quotes are gone when it is read back. */
  lemma ShippedSenderLosesItsQuotes(env: EnvMap, header: string, order: seq<string>, keys: seq<string>)
    requires Lists(keys, env) && Neutral(header) && "EMAIL_FROM" in env && env["EMAIL_FROM"] == EMAIL_FROM
    ensures Parsed(Serialized(env, header, order, keys)) != env
  {
    assert Quoted(EMAIL_FROM);
    RoundTripIff(env, header, order, keys);
  }
}
