/**
 * The sprint-status integrity checker: the indented-YAML-subset reader for the
 * `development_status:` section, status normalisation, the story-key filter,
 * and the classification of every disagreement between the canonical status
 * map and the story files into missing-file, missing-status, status-mismatch
 * and missing-canonical, with the exit code that follows.
 *
 * File system access is abstracted: the status file is a `Result` (its load
 * may fail), and the story directory is a map from each regular file's name
 * to the `Status:` value read from it (`None` when it has no such line).
 */
module StatusIntegrity {
  import opened Wrappers
  import opened Text

  const MismatchExitCode := 2
  const ErrorExitCode := 3

  // ---------------------------------------------------------------------------
  // Lines: `text.split(/\r?\n/)`
  // ---------------------------------------------------------------------------

  function DropCr(s: string): string {
    if |s| > 0 && s[|s| - 1] == '\r' then s[..|s| - 1] else s
  }

  /**
   * Splitting on `\r?\n` is splitting on `\n` and dropping the `\r` that ends
   * every piece followed by a newline; the last piece keeps its `\r`.
   */
  function Lines(text: string): (r: seq<string>)
    ensures |r| == |Split(text, '\n')|
    ensures forall i :: 0 <= i < |r| ==> '\n' !in r[i]
  {
    var parts := Split(text, '\n');
    seq(|parts|, i requires 0 <= i < |parts| =>
      if i < |parts| - 1 then DropCr(parts[i]) else parts[i])
  }

  /** The text that joins `ls`, line `i` ending in `\r\n` when `crlf[i]` and in `\n` otherwise. */
  function JoinLines(ls: seq<string>, crlf: seq<bool>): string
    requires |ls| >= 1 && |crlf| == |ls|
  {
    Join(seq(|ls|, i requires 0 <= i < |ls| =>
      if i < |ls| - 1 && crlf[i] then ls[i] + "\r" else ls[i]), '\n')
  }

  /** Any mix of `\n` and `\r\n` line ends is split back into the original lines. */
  lemma LinesOfJoined(ls: seq<string>, crlf: seq<bool>)
    requires |ls| >= 1 && |crlf| == |ls|
    requires forall i :: 0 <= i < |ls| ==> '\n' !in ls[i]
    requires forall i :: 0 <= i < |ls| - 1 ==> !crlf[i] ==> !EndsWith(ls[i], "\r")
    ensures Lines(JoinLines(ls, crlf)) == ls
  {
    var parts := seq(|ls|, i requires 0 <= i < |ls| =>
      if i < |ls| - 1 && crlf[i] then ls[i] + "\r" else ls[i]);
    forall k | 0 <= k < |parts| ensures '\n' !in parts[k] {
      if k < |ls| - 1 && crlf[k] {
        assert parts[k] == ls[k] + "\r";
      }
    }
    SplitJoin(parts, '\n');
    var r := Lines(JoinLines(ls, crlf));
    forall i | 0 <= i < |ls| ensures r[i] == ls[i] {
      if i < |ls| - 1 {
        if crlf[i] {
          assert parts[i][..|parts[i]| - 1] == ls[i];
        } else if |ls[i]| > 0 {
          assert ls[i][|ls[i]| - 1..] != "\r";
          assert ls[i][|ls[i]| - 1] != '\r';
        }
      }
    }
  }

  // ---------------------------------------------------------------------------
  // One section entry: /^  ([^:#][^:]*):\s*([^\s#]+)\s*(?:#.*)?$/
  // ---------------------------------------------------------------------------

  datatype Entry = Entry(key: string, value: string)

  /** The characters `.` does not match in a JavaScript regular expression. */
  predicate IsLineTerminator(c: char) {
    c == '\n' || c == '\r' || c as int == 0x2028 || c as int == 0x2029
  }

  /** A character of the value group `[^\s#]`. */
  predicate ValueChar(c: char) {
    !IsJsWhitespace(c) && c != '#'
  }

  /** What may follow the value and its trailing blanks: nothing, or `#.*`. */
  predicate CommentTail(s: string) {
    |s| == 0 || (s[0] == '#' && forall i :: 1 <= i < |s| ==> !IsLineTerminator(s[i]))
  }

  /** `CommentTail` of the text from position `from` on. */
  predicate CommentFrom(s: string, from: nat)
    requires from <= |s|
  {
    from == |s| || (s[from] == '#' && forall i :: from < i < |s| ==> !IsLineTerminator(s[i]))
  }

  predicate Blanks(w: string) {
    forall i :: 0 <= i < |w| ==> IsJsWhitespace(w[i])
  }

  /** The first position at or after `from` that holds `c`. */
  function FirstFrom(s: string, from: nat, c: char): (r: Option<nat>)
    requires from <= |s|
    ensures r.Some? ==> from <= r.value < |s| && s[r.value] == c
    ensures r.Some? ==> forall i :: from <= i < r.value ==> s[i] != c
    ensures r.None? ==> forall i :: from <= i < |s| ==> s[i] != c
    decreases |s| - from
  {
    if from == |s| then None else if s[from] == c then Some(from) else FirstFrom(s, from + 1, c)
  }

  /** Where the greedy run of value characters `[^\s#]+` starting at `from` ends. */
  function ValueEnd(s: string, from: nat): (k: nat)
    requires from <= |s|
    ensures from <= k <= |s|
    ensures forall i :: from <= i < k ==> ValueChar(s[i])
    ensures k < |s| ==> !ValueChar(s[k])
    decreases |s| - from
  {
    if from == |s| || !ValueChar(s[from]) then from else ValueEnd(s, from + 1)
  }

  /** Where the greedy run of blanks `\s*` starting at `from` ends. */
  function BlankEnd(s: string, from: nat): (k: nat)
    requires from <= |s|
    ensures from <= k <= |s|
    ensures forall i :: from <= i < k ==> IsJsWhitespace(s[i])
    ensures k < |s| ==> !IsJsWhitespace(s[k])
    decreases |s| - from
  {
    if from == |s| || !IsJsWhitespace(s[from]) then from else BlankEnd(s, from + 1)
  }

  /**
   * The part after the colon, `\s*([^\s#]+)\s*(?:#.*)?$`: where the value
   * starts and ends, when the rest of the line from `from` on matches.
   */
  function ValueSpan(s: string, from: nat): (r: Option<(nat, nat)>)
    requires from <= |s|
    ensures r.Some? ==> from <= r.value.0 < r.value.1 <= |s|
  {
    var a := BlankEnd(s, from);
    var e := ValueEnd(s, a);
    if e > a && CommentFrom(s, BlankEnd(s, e)) then Some((a, e)) else None
  }

  lemma ValueSpanIsGood(s: string, from: nat)
    requires from <= |s| && ValueSpan(s, from).Some?
    ensures GoodValue(s[ValueSpan(s, from).value.0..ValueSpan(s, from).value.1])
  {
    var (a, e) := ValueSpan(s, from).value;
    assert forall i :: 0 <= i < e - a ==> s[a..e][i] == s[a + i];
  }

  /** The trimmed key of a colon-free key group. */
  function KeyOf(raw: string): (k: string)
    requires ':' !in raw
    ensures ':' !in k && Unpadded(k, IsJsWhitespace)
  {
    TrimKeepsAbsence(raw, IsJsWhitespace, ':');
    TrimIdempotent(raw, IsJsWhitespace);
    UnpaddedIff(JsTrim(raw), IsJsWhitespace);
    JsTrim(raw)
  }

  /** Where the key group ends (at the colon) and where the value starts and ends. */
  function EntrySpan(line: string): (r: Option<(nat, nat, nat)>)
    ensures r.Some? ==> 2 < r.value.0 < r.value.1 < r.value.2 <= |line|
  {
    if !Indented(line) || |line| < 3 || line[2] == '#' then None
    else
      match FirstFrom(line, 2, ':')
      case None => None
      case Some(col) =>
        if col == 2 then None
        else
          match ValueSpan(line, col + 1)
          case None => None
          case Some(span) => Some((col, span.0, span.1))
  }

  /**
   * The entry a section line holds: after the two-space indent, the key runs
   * up to the first colon (it may not be empty or start with `#`) and is
   * trimmed; the value is the run the rest of the line gives.
   */
  function ParseEntry(line: string): (r: Option<Entry>)
    ensures r.Some? ==> GoodKey(r.value.key) && GoodValue(r.value.value)
  {
    match EntrySpan(line)
    case None => None
    case Some(span) =>
      var (col, a, e) := span;
      ValueSpanIsGood(line, col + 1);
      assert forall i :: 0 <= i < col - 2 ==> line[2..col][i] == line[2 + i];
      Some(Entry(KeyOf(line[2..col]), line[a..e]))
  }

  /** The regular expression's reading of the text after the colon as `w1 v w2 c`. */
  ghost predicate ValueShape(w1: string, v: string, w2: string, c: string) {
    Blanks(w1) && GoodValue(v) && Blanks(w2) && CommentTail(c)
  }

  /** The regular expression's reading of `line` as two blanks, key `k`, a colon and `w1 v w2 c`. */
  ghost predicate EntryShape(line: string, k: string, w1: string, v: string, w2: string, c: string) {
    line == "  " + k + ":" + (w1 + v + w2 + c)
    && |k| > 0 && k[0] != '#' && ':' !in k
    && ValueShape(w1, v, w2, c)
  }

  lemma ValueSpanComplete(p: string, w1: string, v: string, w2: string, c: string)
    requires ValueShape(w1, v, w2, c)
    ensures ValueSpan(p + w1 + v + w2 + c, |p|) == Some((|p| + |w1|, |p| + |w1| + |v|))
  {
    var s := p + w1 + v + w2 + c;
    var a := |p| + |w1|;
    var e := a + |v|;
    var b := e + |w2|;
    assert BlankEnd(s, |p|) == a by {
      assert forall i :: |p| <= i < a ==> s[i] == w1[i - |p|];
      assert a < |s| ==> s[a] == v[0];
    }
    assert ValueEnd(s, a) == e by {
      assert forall i :: a <= i < e ==> s[i] == v[i - a];
      if |w2| > 0 { assert s[e] == w2[0]; } else if |c| > 0 { assert s[e] == c[0]; }
    }
    assert BlankEnd(s, e) == b by {
      assert forall i :: e <= i < b ==> s[i] == w2[i - e];
      assert b < |s| ==> s[b] == c[0];
    }
    assert CommentFrom(s, b) by {
      assert forall i :: b <= i < |s| ==> s[i] == c[i - b];
    }
  }

  /** A run of blanks, cut out of the text it sits in. */
  lemma BlankSlice(s: string, i: nat, j: nat)
    requires i <= j <= |s|
    requires forall x :: i <= x < j ==> IsJsWhitespace(s[x])
    ensures Blanks(s[i..j])
  {
    assert forall x :: 0 <= x < j - i ==> s[i..j][x] == s[i + x];
  }

  /** A comment tail, cut out of the text it ends. */
  lemma CommentSlice(s: string, b: nat)
    requires b <= |s| && CommentFrom(s, b)
    ensures CommentTail(s[b..])
  {
    assert forall x :: 0 <= x < |s| - b ==> s[b..][x] == s[b + x];
  }

  /** Four adjacent pieces of a text put back together. */
  lemma FourSlices(s: string, from: nat, a: nat, e: nat, b: nat)
    requires from <= a <= e <= b <= |s|
    ensures s[from..] == s[from..a] + s[a..e] + s[e..b] + s[b..]
  {
  }

  lemma ValueSpanSound(s: string, from: nat)
    requires from <= |s| && ValueSpan(s, from).Some?
    ensures exists w1, w2, c ::
              ValueShape(w1, s[ValueSpan(s, from).value.0..ValueSpan(s, from).value.1], w2, c)
              && s[from..] == w1 + s[ValueSpan(s, from).value.0..ValueSpan(s, from).value.1] + w2 + c
  {
    var (a, e) := ValueSpan(s, from).value;
    assert a == BlankEnd(s, from) && e == ValueEnd(s, a);
    var b := BlankEnd(s, e);
    assert CommentFrom(s, b);
    var w1, v, w2, c := s[from..a], s[a..e], s[e..b], s[b..];
    ValueSpanIsGood(s, from);
    BlankSlice(s, from, a);
    BlankSlice(s, e, b);
    CommentSlice(s, b);
    FourSlices(s, from, a, e, b);
    assert ValueShape(w1, v, w2, c) && s[from..] == w1 + v + w2 + c;
  }

  lemma EntrySpanComplete(line: string, k: string, w1: string, v: string, w2: string, c: string)
    requires EntryShape(line, k, w1, v, w2, c)
    ensures EntrySpan(line) == Some((2 + |k|, 3 + |k| + |w1|, 3 + |k| + |w1| + |v|))
  {
    var p := "  " + k + ":";
    assert line == p + w1 + v + w2 + c;
    assert Indented(line) && |line| >= 3 && line[2] == k[0] by {
      assert line[..2] == p[..2];
    }
    assert FirstFrom(line, 2, ':') == Some(2 + |k|) by {
      assert forall i :: 2 <= i < 2 + |k| ==> line[i] == k[i - 2];
      assert line[2 + |k|] == ':';
    }
    ValueSpanComplete(p, w1, v, w2, c);
  }

  /** Every line of the regular expression's shape is read as its trimmed key and its value. */
  lemma ParseEntryComplete(line: string, k: string, w1: string, v: string, w2: string, c: string)
    requires EntryShape(line, k, w1, v, w2, c)
    ensures ParseEntry(line) == Some(Entry(JsTrim(k), v))
  {
    EntrySpanComplete(line, k, w1, v, w2, c);
    ShapeSlices(line, k, w1, v, w2, c);
  }

  lemma ShapeSlices(line: string, k: string, w1: string, v: string, w2: string, c: string)
    requires line == "  " + k + ":" + (w1 + v + w2 + c)
    ensures line[2..2 + |k|] == k
    ensures line[3 + |k| + |w1|..3 + |k| + |w1| + |v|] == v
  {
    var a := 3 + |k| + |w1|;
    assert line == ("  " + k + ":" + w1) + v + (w2 + c);
  }

  /** A key group cut out of a line before its first colon holds no colon. */
  lemma NoColonSlice(line: string, col: nat)
    requires 2 <= col <= |line|
    requires forall i :: 2 <= i < col ==> line[i] != ':'
    ensures ':' !in line[2..col]
  {
    assert forall i :: 0 <= i < col - 2 ==> line[2..col][i] == line[2 + i];
  }

  /** An indented line with a colon at `col` is the indent, the key group, the colon and the rest. */
  lemma SplitAtColon(line: string, col: nat)
    requires Indented(line) && 2 <= col < |line| && line[col] == ':'
    ensures line == "  " + line[2..col] + ":" + line[col + 1..]
  {
    assert line == line[..2] + line[2..col] + [line[col]] + line[col + 1..];
  }

  lemma EntrySpanSound(line: string)
    requires EntrySpan(line).Some?
    ensures var (col, a, e) := EntrySpan(line).value;
            exists w1, w2, c :: EntryShape(line, line[2..col], w1, line[a..e], w2, c)
  {
    var (col, a, e) := EntrySpan(line).value;
    assert Indented(line) && line[2] != '#';
    assert FirstFrom(line, 2, ':') == Some(col);
    assert ValueSpan(line, col + 1) == Some((a, e));
    var k := line[2..col];
    var v := line[a..e];
    ValueSpanSound(line, col + 1);
    var w1, w2, c :| ValueShape(w1, v, w2, c) && line[col + 1..] == w1 + v + w2 + c;
    NoColonSlice(line, col);
    SplitAtColon(line, col);
    assert |k| > 0 && k[0] == line[2];
    assert EntryShape(line, k, w1, v, w2, c);
  }

  /** Every line read as an entry has the regular expression's shape. */
  lemma ParseEntrySound(line: string)
    requires ParseEntry(line).Some?
    ensures exists k, w1, v, w2, c ::
              EntryShape(line, k, w1, v, w2, c) && ParseEntry(line).value == Entry(JsTrim(k), v)
  {
    var (col, a, e) := EntrySpan(line).value;
    EntrySpanSound(line);
    var w1, w2, c :| EntryShape(line, line[2..col], w1, line[a..e], w2, c);
    assert ParseEntry(line).value == Entry(JsTrim(line[2..col]), line[a..e]);
  }

  // ---------------------------------------------------------------------------
  // The development_status section
  // ---------------------------------------------------------------------------

  const Header := "development_status:"

  /** `/^development_status:\s*$/`: the header, then only blanks. */
  predicate IsHeader(line: string) {
    |line| >= |Header| && line[..|Header|] == Header && Blanks(line[|Header|..])
  }

  /** `!line.trim()`: trimming leaves nothing exactly when every character is a blank (`Text.TrimEmptyIff`). */
  predicate IsBlank(line: string) {
    Blanks(line)
  }

  /** `line.startsWith('  ')` */
  predicate Indented(line: string) {
    |line| >= 2 && line[..2] == "  "
  }

  function HeaderIndex(lines: seq<string>): (r: Option<nat>)
    ensures r.Some? ==> r.value < |lines| && IsHeader(lines[r.value])
    ensures r.Some? ==> forall i :: 0 <= i < r.value ==> !IsHeader(lines[i])
    ensures r.None? ==> forall i :: 0 <= i < |lines| ==> !IsHeader(lines[i])
  {
    if |lines| == 0 then None
    else if IsHeader(lines[0]) then Some(0)
    else match HeaderIndex(lines[1..])
      case None => None
      case Some(h) => Some(h + 1)
  }

  /** A key as the parser records it: trimmed and colon-free. */
  predicate GoodKey(key: string) {
    ':' !in key && Unpadded(key, IsJsWhitespace)
  }

  /** A value as the parser records it: a non-empty run of value characters. */
  predicate GoodValue(value: string) {
    |value| > 0 && forall i :: 0 <= i < |value| ==> ValueChar(value[i])
  }

  predicate WellFormed(m: map<string, string>) {
    forall key :: key in m ==> GoodKey(key) && GoodValue(m[key])
  }

  lemma WellFormedUpdate(m: map<string, string>, e: Entry)
    requires WellFormed(m) && GoodKey(e.key) && GoodValue(e.value)
    ensures WellFormed(m[e.key := e.value])
  {
  }

  /** The entry a section line holds, as a list of at most one. */
  function LineEntries(line: string): (es: seq<Entry>)
    ensures |es| <= 1
  {
    match ParseEntry(line)
    case None => []
    case Some(e) => [e]
  }

  /** `statusMap.set(key, value)` for the entry the line holds, if any. */
  function Record(m: map<string, string>, line: string): (r: map<string, string>)
    ensures m.Keys <= r.Keys
  {
    match ParseEntry(line)
    case None => m
    case Some(e) => m[e.key := e.value]
  }

  lemma RecordKeepsWellFormed(m: map<string, string>, line: string)
    requires WellFormed(m)
    ensures WellFormed(Record(m, line))
  {
    match ParseEntry(line)
    case None =>
    case Some(e) => WellFormedUpdate(m, e);
  }

  /** The body of the section loop: skip blanks, stop at the first unindented line, record entries. */
  function ReadSection(lines: seq<string>, m: map<string, string>): (r: map<string, string>)
    requires WellFormed(m)
    ensures WellFormed(r)
    ensures m.Keys <= r.Keys
    decreases |lines|
  {
    if |lines| == 0 then m
    else if IsBlank(lines[0]) then ReadSection(lines[1..], m)
    else if !Indented(lines[0]) then m
    else
      RecordKeepsWellFormed(m, lines[0]);
      ReadSection(lines[1..], Record(m, lines[0]))
  }

  /** `parseDevelopmentStatus` over the lines of the status file. */
  function ParseDevelopmentStatus(lines: seq<string>): (r: map<string, string>)
    ensures WellFormed(r)
    ensures HeaderIndex(lines).None? ==> r == map[]
  {
    match HeaderIndex(lines)
    case None => map[]
    case Some(h) => ReadSection(lines[h + 1..], map[])
  }

  function ParseStatusFile(text: string): map<string, string> {
    ParseDevelopmentStatus(Lines(text))
  }

  // Reference reading of the section: the lines it spans, the entries on them,
  // and the last value given to each key.

  /** How many lines the section spans: up to the first non-blank, unindented line. */
  function SectionLength(lines: seq<string>): (n: nat)
    ensures n <= |lines|
    ensures forall i :: 0 <= i < n ==> IsBlank(lines[i]) || Indented(lines[i])
    ensures n < |lines| ==> !IsBlank(lines[n]) && !Indented(lines[n])
  {
    if |lines| == 0 || (!IsBlank(lines[0]) && !Indented(lines[0])) then 0
    else 1 + SectionLength(lines[1..])
  }

  /** The entries the lines hold, in order. */
  function EntriesOf(lines: seq<string>): (es: seq<Entry>)
    ensures |es| <= |lines|
  {
    if |lines| == 0 then []
    else
      LineEntries(lines[0]) + EntriesOf(lines[1..])
  }

  /** The value of the last entry for `key`, if any. */
  function LastValue(es: seq<Entry>, key: string): Option<string> {
    if |es| == 0 then None
    else
      var later := LastValue(es[1..], key);
      if later.Some? then later
      else if es[0].key == key then Some(es[0].value)
      else None
  }

  function Lookup(m: map<string, string>, key: string): Option<string> {
    if key in m then Some(m[key]) else None
  }

  lemma BlankHasNoEntry(line: string)
    requires IsBlank(line)
    ensures ParseEntry(line).None?
  {
    if |line| >= 3 {
      assert !IsJsWhitespace(':');
    }
  }

  /** Recording a line changes a key's value exactly when the line holds an entry for it. */
  lemma RecordLookup(m: map<string, string>, line: string, key: string)
    ensures Lookup(Record(m, line), key)
      == (var last := LastValue(LineEntries(line), key); if last.Some? then last else Lookup(m, key))
  {
    var parsed := ParseEntry(line);
    if parsed.Some? {
      var e := parsed.value;
      assert Record(m, line) == m[e.key := e.value];
      assert LineEntries(line) == [e];
      assert LastValue([e], key) == if e.key == key then Some(e.value) else None by {
        assert [e][1..] == [];
      }
    } else {
      assert Record(m, line) == m && LineEntries(line) == [];
    }
  }

  lemma LastValueAppend(pre: seq<Entry>, es: seq<Entry>, key: string)
    requires |pre| <= 1
    ensures LastValue(pre + es, key)
      == (var later := LastValue(es, key); if later.Some? then later else LastValue(pre, key))
  {
    if |pre| == 1 {
      assert (pre + es)[1..] == es;
      assert pre[1..] == [];
    } else {
      assert pre + es == es;
    }
  }

  /** A blank line records nothing; an indented one records its entry, if any. */
  lemma ReadSectionStep(lines: seq<string>, m: map<string, string>)
    requires WellFormed(m)
    requires |lines| > 0 && (IsBlank(lines[0]) || Indented(lines[0]))
    ensures ReadSection(lines, m) == ReadSection(lines[1..], Record(m, lines[0]))
  {
    if IsBlank(lines[0]) {
      BlankHasNoEntry(lines[0]);
      assert Record(m, lines[0]) == m;
    }
  }

  /** The entries of a non-empty run of lines: those of its first line, then the rest. */
  lemma EntriesStep(lines: seq<string>, n: nat)
    requires 0 < n <= |lines|
    ensures EntriesOf(lines[..n]) == LineEntries(lines[0]) + EntriesOf(lines[1..][..n - 1])
  {
    assert lines[..n][0] == lines[0];
    assert lines[..n][1..] == lines[1..][..n - 1];
  }

  lemma SectionStep(lines: seq<string>, m: map<string, string>)
    requires WellFormed(m)
    requires |lines| > 0 && SectionLength(lines) > 0
    ensures ReadSection(lines, m) == ReadSection(lines[1..], Record(m, lines[0]))
    ensures SectionLength(lines[1..]) == SectionLength(lines) - 1
    ensures EntriesOf(lines[..SectionLength(lines)])
      == LineEntries(lines[0]) + EntriesOf(lines[1..][..SectionLength(lines) - 1])
  {
    var n := SectionLength(lines);
    assert IsBlank(lines[0]) || Indented(lines[0]);
    ReadSectionStep(lines, m);
    EntriesStep(lines, n);
  }

  /** Reading the section overwrites: each key ends with the value its last entry gives. */
  lemma {:induction false} ReadSectionLastWins(lines: seq<string>, m: map<string, string>, key: string)
    requires WellFormed(m)
    ensures Lookup(ReadSection(lines, m), key)
      == (var last := LastValue(EntriesOf(lines[..SectionLength(lines)]), key);
          if last.Some? then last else Lookup(m, key))
    decreases |lines|
  {
    var n := SectionLength(lines);
    if |lines| > 0 && n > 0 {
      SectionStep(lines, m);
      ReadSectionLastWins(lines[1..], Record(m, lines[0]), key);
      RecordLookup(m, lines[0], key);
      LastValueAppend(LineEntries(lines[0]), EntriesOf(lines[1..][..n - 1]), key);
    } else {
      assert lines[..n] == [];
    }
  }

  /** A key is in the parsed map exactly when some entry of the section names it, with the last such value. */
  lemma ParseLastWins(lines: seq<string>, key: string)
    ensures Lookup(ParseDevelopmentStatus(lines), key)
      == (match HeaderIndex(lines)
          case None => None
          case Some(h) => LastValue(EntriesOf(lines[h + 1..][..SectionLength(lines[h + 1..])]), key))
  {
    if HeaderIndex(lines).Some? {
      ReadSectionLastWins(lines[HeaderIndex(lines).value + 1..], map[], key);
    }
  }

  /** Lines before the first header are never read. */
  lemma IgnoresPreamble(pre: seq<string>, lines: seq<string>)
    requires forall i :: 0 <= i < |pre| ==> !IsHeader(pre[i])
    ensures ParseDevelopmentStatus(pre + lines) == ParseDevelopmentStatus(lines)
  {
    var all := pre + lines;
    match HeaderIndex(lines)
    case None =>
      assert forall i :: 0 <= i < |all| ==> !IsHeader(all[i]) by {
        forall i | 0 <= i < |all| ensures !IsHeader(all[i]) {
          if i >= |pre| {
            assert all[i] == lines[i - |pre|];
          }
        }
      }
    case Some(h) =>
      assert all[|pre| + h] == lines[h];
      var j := HeaderIndex(all).value;
      assert all[j] == lines[j - |pre|];
      assert j == |pre| + h;
      assert all[j + 1..] == lines[h + 1..];
  }

  /** The first non-blank, unindented line ends the section: nothing from it on is read. */
  lemma {:induction false} StopsAtOutdent(body: seq<string>, line: string, rest: seq<string>, m: map<string, string>)
    requires WellFormed(m)
    requires forall i :: 0 <= i < |body| ==> IsBlank(body[i]) || Indented(body[i])
    requires !IsBlank(line) && !Indented(line)
    ensures ReadSection(body + [line] + rest, m) == ReadSection(body, m)
    decreases |body|
  {
    var all := body + [line] + rest;
    if |body| == 0 {
      assert all[0] == line;
    } else {
      assert all[0] == body[0];
      assert all[1..] == body[1..] + [line] + rest;
      if !IsBlank(body[0]) {
        match ParseEntry(body[0])
        case None => StopsAtOutdent(body[1..], line, rest, m);
        case Some(e) => StopsAtOutdent(body[1..], line, rest, m[e.key := e.value]);
      } else {
        StopsAtOutdent(body[1..], line, rest, m);
      }
    }
  }

  // ---------------------------------------------------------------------------
  // Statuses and story keys
  // ---------------------------------------------------------------------------

  /** `status.trim().toLowerCase()` */
  function NormalizeStatus(status: string): string {
    ToLowerAscii(JsTrim(status))
  }

  lemma LowerKeepsWhitespace(c: char)
    ensures IsJsWhitespace(LowerChar(c)) == IsJsWhitespace(c)
  {
  }

  /** Normalising twice is normalising once. */
  lemma NormalizeStatusIdempotent(status: string)
    ensures NormalizeStatus(NormalizeStatus(status)) == NormalizeStatus(status)
  {
    var t := JsTrim(status);
    var l := ToLowerAscii(t);
    if |t| > 0 {
      TrimIdempotent(status, IsJsWhitespace);
      assert !IsJsWhitespace(t[0]) && !IsJsWhitespace(t[|t| - 1]) by {
        assert TrimStart(t, IsJsWhitespace) == t;
        assert TrimEnd(t, IsJsWhitespace) == t;
      }
      LowerKeepsWhitespace(t[0]);
      LowerKeepsWhitespace(t[|t| - 1]);
      TrimOfSolid(l, IsJsWhitespace);
    }
    forall i | 0 <= i < |l| ensures LowerChar(l[i]) == l[i] {
      LowerCharIdempotent(t[i]);
    }
  }

  predicate IsDigit(c: char) {
    '0' <= c <= '9'
  }

  function LeadingDigits(s: string): (n: nat)
    ensures n <= |s|
    ensures forall i :: 0 <= i < n ==> IsDigit(s[i])
    ensures n < |s| ==> !IsDigit(s[n])
  {
    if |s| == 0 || !IsDigit(s[0]) then 0 else 1 + LeadingDigits(s[1..])
  }

  /** `/^\d+-/.test(s)`: the greedy digit run is non-empty and followed by `-`. */
  predicate IsStoryKey(s: string) {
    var n := LeadingDigits(s);
    0 < n < |s| && s[n] == '-'
  }

  /** The pattern holds exactly when some non-empty digit prefix is followed by `-`. */
  lemma StoryKeyIff(s: string)
    ensures IsStoryKey(s) <==> exists d :: 0 < d < |s| && (forall i :: 0 <= i < d ==> IsDigit(s[i])) && s[d] == '-'
  {
    if exists d :: 0 < d < |s| && (forall i :: 0 <= i < d ==> IsDigit(s[i])) && s[d] == '-' {
      var d :| 0 < d < |s| && (forall i :: 0 <= i < d ==> IsDigit(s[i])) && s[d] == '-';
      var n := LeadingDigits(s);
      assert IsDigit(s[n]) || n >= d;
      assert !IsDigit(s[d]);
    }
  }

  lemma {:induction false} LeadingDigitsOfPrefix(s: string, t: string)
    requires LeadingDigits(s) < |s|
    ensures LeadingDigits(s + t) == LeadingDigits(s)
    decreases |s|
  {
    assert (s + t)[0] == s[0];
    if IsDigit(s[0]) {
      assert (s + t)[1..] == s[1..] + t;
      LeadingDigitsOfPrefix(s[1..], t);
    }
  }

  /** A file name is a story file name exactly when its key is a story key. */
  lemma StoryKeyOfFileName(key: string)
    ensures IsStoryKey(key + ".md") == IsStoryKey(key)
  {
    var name := key + ".md";
    if LeadingDigits(key) < |key| {
      LeadingDigitsOfPrefix(key, ".md");
      assert name[LeadingDigits(key)] == key[LeadingDigits(key)];
    } else {
      assert name[|key|] == '.';
      assert forall i :: 0 <= i < |key| ==> name[i] == key[i];
    }
  }

  // ---------------------------------------------------------------------------
  // Mismatch classification
  // ---------------------------------------------------------------------------

  const Backlog := "backlog"

  datatype Reason = MissingFile | MissingStatus | StatusMismatch | MissingCanonical

  datatype Mismatch = Mismatch(storyKey: string, expected: string, actual: string, reason: Reason)

  /** The story directory: each regular file's name and the `Status:` value found in it. */
  type StoryFiles = map<string, Option<string>>

  function StoryFileName(key: string): string {
    key + ".md"
  }

  /** The check of one canonical story key against its file. */
  function CanonicalCheck(key: string, expected: string, files: StoryFiles): (r: Option<Mismatch>)
    ensures r.Some? ==> r.value.storyKey == key && r.value.expected == expected
    ensures r.Some? ==> r.value.reason != MissingCanonical
  {
    var name := StoryFileName(key);
    if name !in files then
      if NormalizeStatus(expected) == Backlog then None
      else Some(Mismatch(key, expected, "missing-file", MissingFile))
    else
      match files[name]
      case None => Some(Mismatch(key, expected, "missing-status", MissingStatus))
      case Some(actual) =>
        if actual == "" then Some(Mismatch(key, expected, "missing-status", MissingStatus))
        else if NormalizeStatus(expected) != NormalizeStatus(actual) then
          Some(Mismatch(key, expected, actual, StatusMismatch))
        else None
  }

  /** A directory entry the listing keeps: a `.md` file whose name matches the story-key pattern. */
  predicate IsStoryFile(name: string) {
    EndsWith(name, ".md") && IsStoryKey(name)
  }

  function KeyOfFile(name: string): string
    requires EndsWith(name, ".md")
  {
    name[..|name| - 3]
  }

  /** The check of one story file against the canonical map. */
  function OrphanCheck(name: string, files: StoryFiles, canonical: map<string, string>): (r: Option<Mismatch>)
    requires name in files
    ensures r.Some? ==> r.value.reason == MissingCanonical && r.value.storyKey !in canonical
  {
    if !IsStoryFile(name) then None
    else
      var key := KeyOfFile(name);
      if key in canonical then None
      else Some(Mismatch(key, "missing-canonical", files[name].GetOr("missing-status"), MissingCanonical))
  }

  /** The canonical keys that are checked. */
  function StoryKeys(canonical: map<string, string>): set<string> {
    set key | key in canonical && IsStoryKey(key)
  }

  function CanonicalMismatches(canonical: map<string, string>, files: StoryFiles): set<Mismatch> {
    set key | key in canonical && IsStoryKey(key) && CanonicalCheck(key, canonical[key], files).Some?
      :: CanonicalCheck(key, canonical[key], files).value
  }

  function OrphanMismatches(canonical: map<string, string>, files: StoryFiles): set<Mismatch> {
    set name | name in files && OrphanCheck(name, files, canonical).Some?
      :: OrphanCheck(name, files, canonical).value
  }

  /** Every mismatch the two passes of the checker collect. */
  function Mismatches(canonical: map<string, string>, files: StoryFiles): (r: set<Mismatch>)
    ensures forall m :: m in r && m.reason != MissingCanonical ==> m.storyKey in StoryKeys(canonical)
    ensures forall m :: m in r && m.reason == MissingCanonical ==> m.storyKey !in canonical
  {
    CanonicalMismatches(canonical, files) + OrphanMismatches(canonical, files)
  }

  /** The conditions under which the checker reports `m`, stated reason by reason. */
  predicate Classified(canonical: map<string, string>, files: StoryFiles, m: Mismatch) {
    var key := m.storyKey;
    var name := StoryFileName(key);
    match m.reason
    case MissingFile =>
      key in canonical && IsStoryKey(key) && m.expected == canonical[key]
      && name !in files && NormalizeStatus(m.expected) != Backlog && m.actual == "missing-file"
    case MissingStatus =>
      key in canonical && IsStoryKey(key) && m.expected == canonical[key]
      && name in files && (files[name] == None || files[name] == Some("")) && m.actual == "missing-status"
    case StatusMismatch =>
      key in canonical && IsStoryKey(key) && m.expected == canonical[key]
      && name in files && files[name] == Some(m.actual) && m.actual != ""
      && NormalizeStatus(m.expected) != NormalizeStatus(m.actual)
    case MissingCanonical =>
      key !in canonical && IsStoryKey(key) && name in files
      && m.expected == "missing-canonical" && m.actual == files[name].GetOr("missing-status")
  }

  lemma KeyOfStoryFileName(key: string)
    ensures EndsWith(StoryFileName(key), ".md") && KeyOfFile(StoryFileName(key)) == key
  {
    assert StoryFileName(key)[..|key|] == key;
  }

  lemma FileNameOfKey(name: string)
    requires EndsWith(name, ".md")
    ensures StoryFileName(KeyOfFile(name)) == name
  {
    assert name == name[..|name| - 3] + name[|name| - 3..];
  }

  /** Every reported mismatch meets its reason's conditions. */
  lemma ReportedIsClassified(canonical: map<string, string>, files: StoryFiles, m: Mismatch)
    requires m in Mismatches(canonical, files)
    ensures Classified(canonical, files, m)
  {
    if m in CanonicalMismatches(canonical, files) {
      var k :| k in canonical && IsStoryKey(k) && CanonicalCheck(k, canonical[k], files) == Some(m);
      assert k == m.storyKey;
    } else {
      var n :| n in files && OrphanCheck(n, files, canonical) == Some(m);
      FileNameOfKey(n);
      KeyOfStoryFileName(KeyOfFile(n));
      StoryKeyOfFileName(KeyOfFile(n));
    }
  }

  /** Every mismatch meeting its reason's conditions is reported. */
  lemma ClassifiedIsReported(canonical: map<string, string>, files: StoryFiles, m: Mismatch)
    requires Classified(canonical, files, m)
    ensures m in Mismatches(canonical, files)
  {
    var key := m.storyKey;
    var name := StoryFileName(key);
    KeyOfStoryFileName(key);
    StoryKeyOfFileName(key);
    if m.reason == MissingCanonical {
      assert OrphanCheck(name, files, canonical) == Some(m);
      assert m in OrphanMismatches(canonical, files);
    } else {
      assert CanonicalCheck(key, canonical[key], files) == Some(m);
      assert m in CanonicalMismatches(canonical, files);
    }
  }

  /** The checker reports exactly the classified mismatches. */
  lemma MismatchClassification(canonical: map<string, string>, files: StoryFiles, m: Mismatch)
    ensures m in Mismatches(canonical, files) <==> Classified(canonical, files, m)
  {
    if m in Mismatches(canonical, files) {
      ReportedIsClassified(canonical, files, m);
    }
    if Classified(canonical, files, m) {
      ClassifiedIsReported(canonical, files, m);
    }
  }

  /** No story key is reported twice. */
  lemma OneMismatchPerKey(canonical: map<string, string>, files: StoryFiles, m1: Mismatch, m2: Mismatch)
    requires m1 in Mismatches(canonical, files) && m2 in Mismatches(canonical, files)
    requires m1.storyKey == m2.storyKey
    ensures m1 == m2
  {
    MismatchClassification(canonical, files, m1);
    MismatchClassification(canonical, files, m2);
  }

  /** A canonical story whose file carries the same status up to case and padding is never reported. */
  lemma AgreeingStoryPasses(canonical: map<string, string>, files: StoryFiles, key: string, actual: string, m: Mismatch)
    requires key in canonical && StoryFileName(key) in files && files[StoryFileName(key)] == Some(actual)
    requires actual != "" && NormalizeStatus(canonical[key]) == NormalizeStatus(actual)
    requires m in Mismatches(canonical, files)
    ensures m.storyKey != key
  {
    ReportedIsClassified(canonical, files, m);
    AgreeingStoryUnclassified(canonical, files, key, actual, m);
  }

  /** No reason's conditions hold for a canonical story whose file agrees with it. */
  lemma AgreeingStoryUnclassified(canonical: map<string, string>, files: StoryFiles, key: string, actual: string,
                                  m: Mismatch)
    requires key in canonical && StoryFileName(key) in files && files[StoryFileName(key)] == Some(actual)
    requires actual != "" && NormalizeStatus(canonical[key]) == NormalizeStatus(actual)
    requires Classified(canonical, files, m)
    ensures m.storyKey != key
  {
  }

  // ---------------------------------------------------------------------------
  // The run and its exit code
  // ---------------------------------------------------------------------------

  datatype Outcome =
    | LoadError(code: string)
    | Mismatched(checked: nat, mismatches: set<Mismatch>)
    | Consistent(checked: nat)

  function ExitCode(o: Outcome): int {
    match o
    case LoadError(_) => ErrorExitCode
    case Mismatched(_, _) => MismatchExitCode
    case Consistent(_) => 0
  }

  /**
   * The checker's `main`. `storyLocationOf` stands for the scalar lookup of
   * `story_location` in the status text; `storyDirectory` is the listing of
   * the directory it names, or the error reading it.
   */
  function VerifyStatusIntegrity(
    statusText: Result<string, string>,
    storyLocationOf: string -> Option<string>,
    storyDirectory: Result<StoryFiles, string>
  ): (o: Outcome)
    ensures statusText.Err? ==> o == LoadError("load-status-file-failed")
    ensures statusText.Ok? && storyLocationOf(statusText.value).GetOr("") == "" ==> o == LoadError("missing-story-location")
    ensures statusText.Ok? && storyLocationOf(statusText.value).GetOr("") != "" && storyDirectory.Err? ==>
              o == LoadError("load-story-directory-failed") && ExitCode(o) == ErrorExitCode
    ensures o.Mismatched? ==> |o.mismatches| > 0
    ensures statusText.Ok? && storyLocationOf(statusText.value).GetOr("") != "" && storyDirectory.Ok? ==>
      var canonical := ParseStatusFile(statusText.value);
      var found := Mismatches(canonical, storyDirectory.value);
      (ExitCode(o) == MismatchExitCode <==> found != {})
      && (ExitCode(o) == 0 <==> found == {})
      && (o.Mismatched? ==> o.mismatches == found && o.checked == |StoryKeys(canonical)|)
      && (o.Consistent? ==> o.checked == |StoryKeys(canonical)|)
  {
    if statusText.Err? then LoadError("load-status-file-failed")
    else if storyLocationOf(statusText.value).GetOr("") == "" then LoadError("missing-story-location")
    else if storyDirectory.Err? then LoadError("load-story-directory-failed")
    else
      var canonical := ParseStatusFile(statusText.value);
      var found := Mismatches(canonical, storyDirectory.value);
      if found != {} then Mismatched(|StoryKeys(canonical)|, found)
      else Consistent(|StoryKeys(canonical)|)
  }
}
