/**
 The five-field cron acceptor, proved against a grammar: a parse tree for every
 accepted string, and every tree's text accepted.
 */
module Cron {
  import opened Common

  // ---------------------------------------------------------------------
  // Library text functions: strconv.Atoi, strings.Split, strings.Fields
  // ---------------------------------------------------------------------

  const MIN_INT: int := -0x8000_0000_0000_0000
  const MAX_INT: int := 0x7fff_ffff_ffff_ffff

  predicate IsDigit(c: char) {
    '0' <= c <= '9'
  }

  predicate IsSign(c: char) {
    c == '+' || c == '-'
  }

  predicate AllDigits(s: string) {
    forall i :: 0 <= i < |s| ==> IsDigit(s[i])
  }

  function DigitsValue(s: string): nat
    requires AllDigits(s)
  {
    if s == "" then 0 else 10 * DigitsValue(s[..|s| - 1]) + (s[|s| - 1] - '0') as int
  }

  /** An optional sign, then at least one digit, within 64 bits. */
  function Atoi(s: string): Option<int> {
    var digits := if s != "" && IsSign(s[0]) then s[1..] else s;
    if digits == "" || !AllDigits(digits) then None
    else
      var v: int := DigitsValue(digits);
      var n := if s[0] == '-' then -v else v;
      if MIN_INT <= n <= MAX_INT then Some(n) else None
  }

  /** The first position of `c`, or the length. */
  function IndexOf(s: string, c: char): (i: nat)
    ensures i <= |s| && c !in s[..i] && (i < |s| ==> s[i] == c)
  {
    if s == "" then 0
    else if s[0] == c then 0
    else
      var i := 1 + IndexOf(s[1..], c);
      assert s[..i] == [s[0]] + s[1..][..i - 1];
      i
  }

  lemma {:induction false} IndexOfFirst(a: string, c: char, b: string)
    requires c !in a
    ensures IndexOf(a + [c] + b, c) == |a|
  {
    if a != "" {
      assert (a + [c] + b)[1..] == a[1..] + [c] + b;
      IndexOfFirst(a[1..], c, b);
    }
  }

  lemma {:induction false} IndexOfAbsent(a: string, c: char)
    requires c !in a
    ensures IndexOf(a, c) == |a|
  {
  }

  function Split(s: string): (parts: seq<string>)
    ensures parts != []
    decreases |s|
  {
    var i := IndexOf(s, ',');
    if i == |s| then [s] else [s[..i]] + Split(s[i + 1..])
  }

  function Join(parts: seq<string>): string {
    if parts == [] then ""
    else if |parts| == 1 then parts[0]
    else parts[0] + [','] + Join(parts[1..])
  }

  lemma {:induction false} JoinSplit(s: string)
    ensures Join(Split(s)) == s
    decreases |s|
  {
    var i := IndexOf(s, ',');
    if i < |s| {
      JoinSplit(s[i + 1..]);
      var rest := Split(s[i + 1..]);
      assert ([s[..i]] + rest)[1..] == rest;
      assert s == s[..i] + [','] + s[i + 1..];
    }
  }

  lemma {:induction false} SplitJoin(parts: seq<string>)
    requires parts != []
    requires forall i :: 0 <= i < |parts| ==> ',' !in parts[i]
    ensures Split(Join(parts)) == parts
  {
    if |parts| == 1 {
      IndexOfAbsent(parts[0], ',');
    } else {
      var rest := parts[1..];
      SplitJoin(rest);
      IndexOfFirst(parts[0], ',', Join(rest));
      var s := parts[0] + [','] + Join(rest);
      assert s[..|parts[0]|] == parts[0];
      assert s[|parts[0]| + 1..] == Join(rest);
      assert Join(parts) == s;
      assert Split(s) == [parts[0]] + Split(Join(rest));
    }
  }

  /** unicode.IsSpace. */
  predicate IsSpace(c: char) {
    '\t' <= c <= '\r' || c == ' ' || c == '\U{85}' || c == '\U{A0}' || c == '\U{1680}' ||
    '\U{2000}' <= c <= '\U{200A}' || c == '\U{2028}' || c == '\U{2029}' || c == '\U{202F}' ||
    c == '\U{205F}' || c == '\U{3000}'
  }

  predicate AllSpace(s: string) {
    forall i :: 0 <= i < |s| ==> IsSpace(s[i])
  }

  predicate Word(s: string) {
    s != "" && forall i :: 0 <= i < |s| ==> !IsSpace(s[i])
  }

  /** The length of the longest prefix without space. */
  function WordLength(s: string): (n: nat)
    ensures n <= |s|
    ensures forall i :: 0 <= i < n ==> !IsSpace(s[i])
    ensures n < |s| ==> IsSpace(s[n])
  {
    if s == "" || IsSpace(s[0]) then 0 else 1 + WordLength(s[1..])
  }

  function Fields(s: string): (words: seq<string>)
    ensures forall i :: 0 <= i < |words| ==> Word(words[i])
    decreases |s|
  {
    if s == "" then []
    else if IsSpace(s[0]) then Fields(s[1..])
    else [s[..WordLength(s)]] + Fields(s[WordLength(s)..])
  }

  /** The runs of space around the fields. */
  function Gaps(s: string): (gaps: seq<string>)
    ensures |gaps| == |Fields(s)| + 1
    decreases |s|
  {
    if s == "" then [""]
    else if IsSpace(s[0]) then
      var gaps := Gaps(s[1..]);
      [[s[0]] + gaps[0]] + gaps[1..]
    else [""] + Gaps(s[WordLength(s)..])
  }

  predicate GapsFit(gaps: seq<string>, words: seq<string>) {
    |gaps| == |words| + 1 &&
    (forall i :: 0 <= i < |gaps| ==> AllSpace(gaps[i])) &&
    (forall i :: 0 < i < |words| ==> gaps[i] != "")
  }

  /** gaps[0] words[0] gaps[1] words[1] .. gaps[n] */
  function Lay(gaps: seq<string>, words: seq<string>): string
    requires |gaps| == |words| + 1
  {
    if words == [] then gaps[0] else gaps[0] + words[0] + Lay(gaps[1..], words[1..])
  }

  lemma LayAfterSpace(c: char, gaps: seq<string>, words: seq<string>)
    requires GapsFit(gaps, words) && IsSpace(c)
    ensures var gaps' := [[c] + gaps[0]] + gaps[1..];
            GapsFit(gaps', words) && Lay(gaps', words) == [c] + Lay(gaps, words)
  {
  }

  lemma LayAfterWord(w: string, gaps: seq<string>, words: seq<string>)
    requires GapsFit(gaps, words) && (words != [] ==> gaps[0] != "")
    ensures GapsFit([""] + gaps, [w] + words) && Lay([""] + gaps, [w] + words) == w + Lay(gaps, words)
  {
  }

  lemma FieldsOfEmpty(s: string)
    ensures s == "" ==> Fields(s) == []
  {
  }

  lemma SpaceFirst(s: string)
    requires s != "" && IsSpace(s[0])
    ensures Gaps(s) == [[s[0]] + Gaps(s[1..])[0]] + Gaps(s[1..])[1..] && Fields(s) == Fields(s[1..])
  {
  }

  lemma WordFirst(s: string)
    requires s != "" && !IsSpace(s[0])
    ensures var n := WordLength(s);
            Gaps(s) == [""] + Gaps(s[n..]) && Fields(s) == [s[..n]] + Fields(s[n..]) && s == s[..n] + s[n..]
  {
  }

  lemma {:induction false} LayFields(s: string)
    ensures GapsFit(Gaps(s), Fields(s)) && Lay(Gaps(s), Fields(s)) == s
    ensures s != "" && IsSpace(s[0]) ==> Gaps(s)[0] != ""
    decreases |s|
  {
    if s == "" {
    } else if IsSpace(s[0]) {
      var gaps, words := Gaps(s[1..]), Fields(s[1..]);
      LayFields(s[1..]);
      LayAfterSpace(s[0], gaps, words);
      SpaceFirst(s);
    } else {
      var n := WordLength(s);
      var gaps, words := Gaps(s[n..]), Fields(s[n..]);
      LayFields(s[n..]);
      assert words != [] ==> gaps[0] != "" by { FieldsOfEmpty(s[n..]); }
      LayAfterWord(s[..n], gaps, words);
      WordFirst(s);
    }
  }

  lemma {:induction false} FieldsSkip(gap: string, s: string)
    requires AllSpace(gap)
    ensures Fields(gap + s) == Fields(s)
  {
    if gap == "" {
      assert gap + s == s;
    } else {
      FieldsSkip(gap[1..], s);
      assert (gap + s)[1..] == gap[1..] + s;
    }
  }

  lemma {:induction false} WordLengthIs(w: string, rest: string)
    requires Word(w) && (rest == "" || IsSpace(rest[0]))
    ensures WordLength(w + rest) == |w|
  {
    assert (w + rest)[1..] == w[1..] + rest;
    if |w| == 1 {
      assert w[1..] + rest == rest;
    } else {
      WordLengthIs(w[1..], rest);
    }
  }

  lemma {:induction false} FieldsLay(gaps: seq<string>, words: seq<string>)
    requires GapsFit(gaps, words)
    requires forall i :: 0 <= i < |words| ==> Word(words[i])
    ensures Fields(Lay(gaps, words)) == words
  {
    if words == [] {
      FieldsSkip(gaps[0], "");
      assert gaps[0] + "" == gaps[0];
    } else {
      var rest := Lay(gaps[1..], words[1..]);
      FieldsLay(gaps[1..], words[1..]);
      var tail := words[0] + rest;
      FieldsSkip(gaps[0], tail);
      assert Lay(gaps, words) == gaps[0] + tail;
      assert |words| > 1 ==> gaps[1] != "" && rest[0] == gaps[1][0];
      assert |words| == 1 ==> rest == gaps[1];
      WordLengthIs(words[0], rest);
      assert tail[..|words[0]|] == words[0] && tail[|words[0]|..] == rest;
    }
  }

  // ---------------------------------------------------------------------
  // The grammar
  // ---------------------------------------------------------------------

  /** Numbers keep their text: "5", "+5" and "005" all read as five. */
  datatype Part = Star | Step(n: string) | Range(a: string, b: string) | Value(n: string)

  function PartText(p: Part): string {
    match p
    case Star => "*"
    case Step(n) => "*/" + n
    case Range(a, b) => a + "-" + b
    case Value(n) => n
  }

  predicate PartOk(p: Part, lo: int, hi: int) {
    match p
    case Star => true
    case Step(n) => Atoi(n).Some? && Atoi(n).value >= 1
    case Range(a, b) =>
      '-' !in a && Atoi(a).Some? && Atoi(b).Some? && lo <= Atoi(a).value <= Atoi(b).value <= hi
    case Value(n) => '-' !in n && Atoi(n).Some? && lo <= Atoi(n).value <= hi
  }

  /** `v` is one of the values a part stands for; a step counts from the start of the domain. */
  predicate PartMatches(p: Part, lo: int, hi: int, v: int)
    requires PartOk(p, lo, hi)
  {
    match p
    case Star => lo <= v <= hi
    case Step(n) => lo <= v <= hi && (v - lo) % Atoi(n).value == 0
    case Range(a, b) => Atoi(a).value <= v <= Atoi(b).value
    case Value(n) => v == Atoi(n).value
  }

  /** A schedule: five comma lists of parts, and the space around them. */
  datatype Schedule = Schedule(gaps: seq<string>, fields: seq<seq<Part>>)

  function Domain(i: nat): (int, int)
    requires i < 5
  {
    [(0, 59), (0, 23), (1, 31), (1, 12), (0, 7)][i]
  }

  predicate FieldOk(parts: seq<Part>, lo: int, hi: int) {
    parts != [] && forall i :: 0 <= i < |parts| ==> PartOk(parts[i], lo, hi)
  }

  function PartTexts(parts: seq<Part>): seq<string> {
    seq(|parts|, i requires 0 <= i < |parts| => PartText(parts[i]))
  }

  function FieldText(parts: seq<Part>): string {
    Join(PartTexts(parts))
  }

  function FieldTexts(fields: seq<seq<Part>>): seq<string> {
    seq(|fields|, i requires 0 <= i < |fields| => FieldText(fields[i]))
  }

  predicate ScheduleOk(t: Schedule) {
    |t.fields| == 5 && GapsFit(t.gaps, FieldTexts(t.fields)) &&
    forall i :: 0 <= i < 5 ==> FieldOk(t.fields[i], Domain(i).0, Domain(i).1)
  }

  function ScheduleText(t: Schedule): string
    requires |t.gaps| == |t.fields| + 1
  {
    Lay(t.gaps, FieldTexts(t.fields))
  }

  // ---------------------------------------------------------------------
  // The acceptor
  // ---------------------------------------------------------------------

  predicate HasPrefix(s: string, p: string) {
    |p| <= |s| && s[..|p|] == p
  }

  predicate CheckPart(part: string, lo: int, hi: int) {
    if part == "*" then true
    else if HasPrefix(part, "*/") then
      var n := Atoi(part[2..]);
      n.Some? && n.value >= 1
    else
      var i := IndexOf(part, '-');
      if i < |part| then
        var a, b := Atoi(part[..i]), Atoi(part[i + 1..]);
        a.Some? && b.Some? && a.value <= b.value && lo <= a.value && b.value <= hi
      else
        var n := Atoi(part);
        n.Some? && lo <= n.value <= hi
  }

  predicate FieldAccepted(field: string, lo: int, hi: int) {
    forall i :: 0 <= i < |Split(field)| ==> CheckPart(Split(field)[i], lo, hi)
  }

  predicate Accepted(expr: string) {
    |Fields(expr)| == 5 &&
    forall i :: 0 <= i < 5 ==> FieldAccepted(Fields(expr)[i], Domain(i).0, Domain(i).1)
  }

  datatype CronError = WrongFieldCount(got: nat) | BadField(index: nat, part: string)

  /** `part` is the first bad part of the field. */
  ghost predicate FirstBadPart(field: string, part: string, lo: int, hi: int) {
    var parts := Split(field);
    exists k :: 0 <= k < |parts| && parts[k] == part && !CheckPart(part, lo, hi) &&
                forall j :: 0 <= j < k ==> CheckPart(parts[j], lo, hi)
  }

  /** What each error says about the schedule. */
  ghost predicate Blames(expr: string, e: CronError) {
    var fields := Fields(expr);
    match e
    case WrongFieldCount(got) => got == |fields| != 5
    case BadField(index, part) =>
      |fields| == 5 && index < 5 && FirstBadPart(fields[index], part, Domain(index).0, Domain(index).1) &&
      forall k :: 0 <= k < index ==> FieldAccepted(fields[k], Domain(k).0, Domain(k).1)
  }

  method CheckField(field: string, lo: int, hi: int) returns (r: Result<(), string>)
    ensures r.Ok? <==> FieldAccepted(field, lo, hi)
    ensures r.Err? ==> FirstBadPart(field, r.error, lo, hi)
  {
    var parts := Split(field);
    for i := 0 to |parts|
      invariant forall k :: 0 <= k < i ==> CheckPart(parts[k], lo, hi)
    {
      if !CheckPart(parts[i], lo, hi) {
        return Err(parts[i]);
      }
    }
    return Ok(());
  }

  method ValidateSchedule(expr: string) returns (r: Result<(), CronError>)
    ensures r.Ok? <==> Accepted(expr)
    ensures r.Err? ==> Blames(expr, r.error)
  {
    var fields := Fields(expr);
    if |fields| != 5 {
      return Err(WrongFieldCount(|fields|));
    }
    for i := 0 to 5
      invariant forall k :: 0 <= k < i ==> FieldAccepted(fields[k], Domain(k).0, Domain(k).1)
    {
      var f := CheckField(fields[i], Domain(i).0, Domain(i).1);
      if f.Err? {
        return Err(BadField(i, f.error));
      }
    }
    return Ok(());
  }

  // ---------------------------------------------------------------------
  // Text to tree and back
  // ---------------------------------------------------------------------

  function ParsePart(s: string): Part {
    if s == "*" then Star
    else if HasPrefix(s, "*/") then Step(s[2..])
    else if IndexOf(s, '-') < |s| then Range(s[..IndexOf(s, '-')], s[IndexOf(s, '-') + 1..])
    else Value(s)
  }

  /** A numeral is made of signs and digits. */
  lemma NumeralChars(n: string)
    requires Atoi(n).Some?
    ensures n != "" && forall i :: 0 <= i < |n| ==> IsDigit(n[i]) || IsSign(n[i])
  {
  }

  predicate Plain(s: string) {
    Word(s) && ',' !in s
  }

  lemma NumeralIsPlain(n: string)
    requires Atoi(n).Some?
    ensures Plain(n)
  {
  }

  lemma PlainConcat(a: string, b: string)
    requires Plain(a) && Plain(b)
    ensures Plain(a + b)
  {
  }

  lemma PartTextChars(p: Part, lo: int, hi: int)
    requires PartOk(p, lo, hi)
    ensures Plain(PartText(p))
  {
    match p
    case Star =>
    case Step(n) => NumeralIsPlain(n); PlainConcat("*/", n);
    case Range(a, b) => NumeralIsPlain(a); NumeralIsPlain(b); PlainConcat(a, "-"); PlainConcat(a + "-", b);
    case Value(n) => NumeralIsPlain(n);
  }

  lemma PrefixedText(s: string, p: string)
    requires HasPrefix(s, p)
    ensures s == p + s[|p|..]
  {
  }

  lemma CutText(s: string, i: nat)
    requires i < |s| && s[i] == '-'
    ensures s == s[..i] + "-" + s[i + 1..]
  {
  }

  /** An accepted part is the text of the tree it parses to. */
  lemma PartSound(s: string, lo: int, hi: int)
    requires CheckPart(s, lo, hi)
    ensures PartOk(ParsePart(s), lo, hi) && PartText(ParsePart(s)) == s
  {
    if s == "*" {
    } else if HasPrefix(s, "*/") {
      PrefixedText(s, "*/");
    } else if IndexOf(s, '-') < |s| {
      CutText(s, IndexOf(s, '-'));
    }
  }

  lemma RangeText(a: string, b: string)
    requires Atoi(a).Some? && '-' !in a
    ensures var s := a + "-" + b;
            s != "*" && !HasPrefix(s, "*/") && IndexOf(s, '-') == |a| < |s| && s[..|a|] == a && s[|a| + 1..] == b
  {
    var s := a + "-" + b;
    NumeralChars(a);
    assert s[0] == a[0] && a[0] != '*';
    IndexOfFirst(a, '-', b);
    assert s == a + ['-'] + b;
  }

  lemma RangeComplete(a: string, b: string, lo: int, hi: int)
    requires PartOk(Range(a, b), lo, hi)
    ensures CheckPart(a + "-" + b, lo, hi) && ParsePart(a + "-" + b) == Range(a, b)
  {
    RangeText(a, b);
  }

  /** The text of a part is accepted and parses back to that part: the grammar is unambiguous. */
  lemma PartComplete(p: Part, lo: int, hi: int)
    requires PartOk(p, lo, hi)
    ensures CheckPart(PartText(p), lo, hi) && ParsePart(PartText(p)) == p
  {
    match p {
      case Star =>
      case Step(n) =>
        var s := "*/" + n;
        assert s[..2] == "*/" && s[2..] == n && |s| > 1;
      case Range(a, b) =>
        RangeComplete(a, b, lo, hi);
      case Value(n) =>
        NumeralChars(n);
        IndexOfAbsent(n, '-');
        assert n[0] != '*';
    }
  }

  function ParseField(s: string): seq<Part> {
    seq(|Split(s)|, i requires 0 <= i < |Split(s)| => ParsePart(Split(s)[i]))
  }

  lemma FieldSound(s: string, lo: int, hi: int)
    requires FieldAccepted(s, lo, hi)
    ensures FieldOk(ParseField(s), lo, hi) && FieldText(ParseField(s)) == s
  {
    var parts, texts := ParseField(s), Split(s);
    forall i | 0 <= i < |parts| ensures PartOk(parts[i], lo, hi) && PartTexts(parts)[i] == texts[i] {
      PartSound(texts[i], lo, hi);
    }
    assert PartTexts(parts) == texts;
    JoinSplit(s);
  }

  lemma FieldComplete(parts: seq<Part>, lo: int, hi: int)
    requires FieldOk(parts, lo, hi)
    ensures FieldAccepted(FieldText(parts), lo, hi) && ParseField(FieldText(parts)) == parts
  {
    var texts := PartTexts(parts);
    forall i | 0 <= i < |texts|
      ensures ',' !in texts[i] && CheckPart(texts[i], lo, hi) && ParsePart(texts[i]) == parts[i]
    {
      PartTextChars(parts[i], lo, hi);
      PartComplete(parts[i], lo, hi);
    }
    SplitJoin(texts);
  }

  lemma {:induction false} JoinIsWord(texts: seq<string>)
    requires texts != [] && forall i :: 0 <= i < |texts| ==> Word(texts[i])
    ensures Word(Join(texts))
  {
    if |texts| > 1 {
      JoinIsWord(texts[1..]);
    }
  }

  lemma FieldTextIsWord(parts: seq<Part>, lo: int, hi: int)
    requires FieldOk(parts, lo, hi)
    ensures Word(FieldText(parts))
  {
    forall i | 0 <= i < |parts| ensures Word(PartTexts(parts)[i]) {
      PartTextChars(parts[i], lo, hi);
    }
    JoinIsWord(PartTexts(parts));
  }

  function Parse(s: string): Schedule {
    Schedule(Gaps(s), seq(|Fields(s)|, i requires 0 <= i < |Fields(s)| => ParseField(Fields(s)[i])))
  }

  lemma ScheduleSound(s: string)
    requires Accepted(s)
    ensures ScheduleOk(Parse(s)) && ScheduleText(Parse(s)) == s
  {
    var t := Parse(s);
    forall i | 0 <= i < 5
      ensures FieldOk(t.fields[i], Domain(i).0, Domain(i).1) && FieldTexts(t.fields)[i] == Fields(s)[i]
    {
      FieldSound(Fields(s)[i], Domain(i).0, Domain(i).1);
    }
    assert FieldTexts(t.fields) == Fields(s);
    LayFields(s);
  }

  lemma ScheduleComplete(t: Schedule)
    requires ScheduleOk(t)
    ensures Accepted(ScheduleText(t)) && Parse(ScheduleText(t)).fields == t.fields
  {
    var words := FieldTexts(t.fields);
    forall i | 0 <= i < 5
      ensures Word(words[i]) && FieldAccepted(words[i], Domain(i).0, Domain(i).1) && ParseField(words[i]) == t.fields[i]
    {
      FieldTextIsWord(t.fields[i], Domain(i).0, Domain(i).1);
      FieldComplete(t.fields[i], Domain(i).0, Domain(i).1);
    }
    FieldsLay(t.gaps, words);
  }

  /** The acceptor accepts a string exactly when the grammar generates it. */
  lemma AcceptedIffGenerated(s: string)
    ensures Accepted(s) <==> exists t: Schedule :: ScheduleOk(t) && ScheduleText(t) == s
  {
    if Accepted(s) {
      ScheduleSound(s);
    }
    forall t: Schedule | ScheduleOk(t) && ScheduleText(t) == s ensures Accepted(s) {
      ScheduleComplete(t);
    }
  }

  /** Two trees with one text have the same fields. */
  lemma {:induction false} GrammarIsUnambiguous(t: Schedule, u: Schedule)
    requires ScheduleOk(t) && ScheduleOk(u) && ScheduleText(t) == ScheduleText(u)
    ensures t.fields == u.fields
  {
    ScheduleComplete(t);
    ScheduleComplete(u);
  }

  ghost predicate FieldMatches(parts: seq<Part>, lo: int, hi: int, v: int)
    requires FieldOk(parts, lo, hi)
  {
    exists i :: 0 <= i < |parts| && PartMatches(parts[i], lo, hi, v)
  }

  lemma PartDenotes(p: Part, lo: int, hi: int) returns (v: int)
    requires PartOk(p, lo, hi) && lo <= hi
    ensures PartMatches(p, lo, hi, v)
  {
    v := match p
      case Range(a, _) => Atoi(a).value
      case Value(n) => Atoi(n).value
      case _ => lo;
  }

  lemma FieldDenotes(parts: seq<Part>, lo: int, hi: int)
    requires FieldOk(parts, lo, hi) && lo <= hi
    ensures exists v :: FieldMatches(parts, lo, hi, v)
    ensures forall v :: FieldMatches(parts, lo, hi, v) ==> lo <= v <= hi
  {
    var v := PartDenotes(parts[0], lo, hi);
    assert FieldMatches(parts, lo, hi, v);
  }

  /** Every field of an accepted schedule stands for a non-empty subset of its domain. */
  lemma AcceptedFieldsDenote(s: string, i: nat)
    requires Accepted(s) && i < 5
    ensures var (lo, hi) := Domain(i);
            var parts := Parse(s).fields[i];
            FieldOk(parts, lo, hi) && (exists v :: FieldMatches(parts, lo, hi, v)) &&
            forall v :: FieldMatches(parts, lo, hi, v) ==> lo <= v <= hi
  {
    ScheduleSound(s);
    FieldDenotes(Parse(s).fields[i], Domain(i).0, Domain(i).1);
  }

  /** A minus sign is possible in one place only: as "-0", "-00", .. at the upper end of a range from zero. */
  lemma MinusOnlyAsZeroUpperBound(p: Part, lo: int, hi: int)
    requires PartOk(p, lo, hi) && 0 <= lo && p.Range? && p.b[0] == '-'
    ensures Atoi(p.a) == Some(0) && Atoi(p.b) == Some(0) && lo == 0
  {
  }

  // ---------------------------------------------------------------------
  // What numerals read as
  // ---------------------------------------------------------------------

  /** The decimal text of a number, by division. */
  function Decimal(n: nat): string {
    if n < 10 then ["0123456789"[n]] else Decimal(n / 10) + ["0123456789"[n % 10]]
  }

  predicate Zeros(s: string) {
    forall i :: 0 <= i < |s| ==> s[i] == '0'
  }

  lemma DigitsSnoc(s: string, d: nat)
    requires AllDigits(s) && d < 10
    ensures AllDigits(s + ["0123456789"[d]])
    ensures DigitsValue(s + ["0123456789"[d]]) == 10 * DigitsValue(s) + d
  {
    var t := s + ["0123456789"[d]];
    assert t[..|t| - 1] == s;
  }

  lemma {:induction false} ZerosValue(zeros: string)
    requires Zeros(zeros)
    ensures AllDigits(zeros) && DigitsValue(zeros) == 0
  {
    if zeros != "" {
      ZerosValue(zeros[..|zeros| - 1]);
    }
  }

  /** Digits read as the number whose decimal text they are, leading zeros aside. */
  lemma {:induction false} DigitsOfDecimal(zeros: string, n: nat)
    requires Zeros(zeros)
    ensures AllDigits(zeros + Decimal(n)) && DigitsValue(zeros + Decimal(n)) == n
  {
    if n < 10 {
      ZerosValue(zeros);
      DigitsSnoc(zeros, n);
    } else {
      DigitsOfDecimal(zeros, n / 10);
      DigitsSnoc(zeros + Decimal(n / 10), n % 10);
      assert zeros + Decimal(n) == zeros + Decimal(n / 10) + ["0123456789"[n % 10]];
    }
  }

  lemma DecimalSnoc(m: nat, d: nat)
    requires m > 0 && d < 10
    ensures Decimal(10 * m + d) == Decimal(m) + ["0123456789"[d]]
  {
    assert (10 * m + d) / 10 == m && (10 * m + d) % 10 == d;
  }

  /** Any digits are zeros before the decimal text of some number. */
  lemma {:induction false} DigitsAreDecimal(s: string) returns (zeros: string, n: nat)
    requires AllDigits(s) && s != ""
    ensures Zeros(zeros) && s == zeros + Decimal(n)
  {
    var d := (s[|s| - 1] - '0') as nat;
    var front := s[..|s| - 1];
    assert s[|s| - 1] == "0123456789"[d];
    if front == "" {
      zeros, n := "", d;
      assert s == "" + Decimal(d);
    } else {
      var z, m := DigitsAreDecimal(front);
      if m == 0 {
        zeros, n := front, d;
        assert front == z + "0";
      } else {
        zeros, n := z, 10 * m + d;
        DecimalSnoc(m, d);
      }
      assert s == zeros + Decimal(n);
    }
  }

  /** With or without a sign, the digits read as v within 64 bits. */
  predicate ReadAs(digits: string, v: int) {
    Atoi(digits) == (if v < 0x8000_0000_0000_0000 then Some(v) else None) &&
    Atoi("+" + digits) == (if v < 0x8000_0000_0000_0000 then Some(v) else None) &&
    Atoi("-" + digits) == (if v <= 0x8000_0000_0000_0000 then Some(-v) else None)
  }

  lemma SignedDigits(digits: string)
    requires digits != "" && AllDigits(digits)
    ensures ReadAs(digits, DigitsValue(digits))
  {
    assert IsDigit(digits[0]);
    assert ("+" + digits)[1..] == digits && ("-" + digits)[1..] == digits;
  }

  lemma {:induction false} DecimalNotEmpty(n: nat)
    ensures Decimal(n) != ""
  {
  }

  /** A numeral reads as its decimal value, with leading zeros and a sign, within 64 bits. */
  lemma {:induction false} AtoiReads(zeros: string, n: nat)
    requires Zeros(zeros)
    ensures ReadAs(zeros + Decimal(n), n)
  {
    DigitsOfDecimal(zeros, n);
    DecimalNotEmpty(n);
    SignedDigits(zeros + Decimal(n));
  }

  /** Nothing else reads as a number. */
  lemma AtoiReadsOnly(s: string) returns (sign: string, zeros: string, n: nat)
    requires Atoi(s).Some?
    ensures sign in {"", "+", "-"} && Zeros(zeros) && s == sign + (zeros + Decimal(n))
    ensures var v: int := n; Atoi(s) == Some(if sign == "-" then -v else v)
  {
    var digits := if IsSign(s[0]) then s[1..] else s;
    sign := if IsSign(s[0]) then [s[0]] else "";
    zeros, n := DigitsAreDecimal(digits);
    AtoiReads(zeros, n);
    assert s == sign + digits;
  }

  lemma DecimalIsPlain(n: nat)
    ensures Decimal(n) != "" && AllDigits(Decimal(n)) && Plain(Decimal(n)) && '-' !in Decimal(n)
  {
    DecimalNotEmpty(n);
    DigitsOfDecimal("", n);
    assert "" + Decimal(n) == Decimal(n);
  }

  lemma AtoiOfDecimal(n: nat)
    ensures Atoi(Decimal(n)) == if n < 0x8000_0000_0000_0000 then Some(n) else None
  {
    AtoiReads("", n);
    assert "" + Decimal(n) == Decimal(n);
  }

  /** The text of a number is an accepted part exactly when the number is in the domain. */
  lemma ValueAcceptedIff(n: nat, lo: int, hi: int)
    requires hi < 0x8000_0000_0000_0000
    ensures CheckPart(Decimal(n), lo, hi) <==> lo <= n <= hi
  {
    DecimalIsPlain(n);
    AtoiOfDecimal(n);
    DigitsPart(Decimal(n), n, lo, hi);
  }

  lemma DigitsPart(s: string, v: int, lo: int, hi: int)
    requires s != "" && AllDigits(s) && hi < 0x8000_0000_0000_0000
    requires Atoi(s) == if v < 0x8000_0000_0000_0000 then Some(v) else None
    ensures CheckPart(s, lo, hi) <==> lo <= v <= hi
  {
    IndexOfAbsent(s, '-');
    assert s[0] != '*';
  }

  lemma RangeAcceptedIff(a: nat, b: nat, lo: int, hi: int)
    requires hi < 0x8000_0000_0000_0000
    ensures CheckPart(Decimal(a) + "-" + Decimal(b), lo, hi) <==> lo <= a <= b <= hi
  {
    DecimalIsPlain(a);
    AtoiOfDecimal(a);
    AtoiOfDecimal(b);
    DashText(Decimal(a), Decimal(b));
  }

  lemma DashText(a: string, b: string)
    requires a != "" && IsDigit(a[0]) && '-' !in a
    ensures var s := a + "-" + b;
            s != "*" && !HasPrefix(s, "*/") && IndexOf(s, '-') == |a| < |s| && s[..|a|] == a && s[|a| + 1..] == b
  {
    var s := a + "-" + b;
    assert s[0] == a[0] && a[0] != '*';
    IndexOfFirst(a, '-', b);
    assert s == a + ['-'] + b;
  }

  lemma StepAcceptedIff(n: nat, lo: int, hi: int)
    ensures CheckPart("*/" + Decimal(n), lo, hi) <==> 1 <= n < 0x8000_0000_0000_0000
  {
    var s := "*/" + Decimal(n);
    DecimalNotEmpty(n);
    AtoiOfDecimal(n);
    assert s[..2] == "*/" && s[2..] == Decimal(n) && |s| > 1;
  }

  // What accepted texts stand for: a number itself, a range everything from end
  // to end, a step every n-th value from the start of the domain.

  lemma ValueStandsFor(a: nat, lo: int, hi: int, v: int)
    requires lo <= a <= hi < 0x8000_0000_0000_0000
    ensures var p := ParsePart(Decimal(a)); PartOk(p, lo, hi) && (PartMatches(p, lo, hi, v) <==> v == a)
  {
    DecimalIsPlain(a);
    AtoiOfDecimal(a);
    ValueParses(Decimal(a));
  }

  lemma ValueParses(n: string)
    requires n != "" && AllDigits(n)
    ensures ParsePart(n) == Value(n) && '-' !in n
  {
    IndexOfAbsent(n, '-');
    assert n[0] != '*';
  }

  lemma {:induction false} RangeStandsFor(a: nat, b: nat, lo: int, hi: int, v: int)
    requires lo <= a <= b <= hi < 0x8000_0000_0000_0000
    ensures var p := ParsePart(Decimal(a) + "-" + Decimal(b));
            PartOk(p, lo, hi) && (PartMatches(p, lo, hi, v) <==> a <= v <= b)
  {
    DecimalIsPlain(a);
    AtoiOfDecimal(a);
    AtoiOfDecimal(b);
    RangeParses(Decimal(a), Decimal(b));
  }

  lemma RangeParses(a: string, b: string)
    requires a != "" && AllDigits(a) && '-' !in a
    ensures ParsePart(a + "-" + b) == Range(a, b)
  {
    DashText(a, b);
  }

  lemma StepStandsFor(n: nat, lo: int, hi: int, v: int)
    requires 1 <= n < 0x8000_0000_0000_0000
    ensures var p := ParsePart("*/" + Decimal(n));
            PartOk(p, lo, hi) && (PartMatches(p, lo, hi, v) <==> lo <= v <= hi && (v - lo) % n == 0)
  {
    DecimalNotEmpty(n);
    AtoiOfDecimal(n);
    StepParses(Decimal(n));
  }

  lemma StepParses(n: string)
    requires n != ""
    ensures ParsePart("*/" + n) == Step(n)
  {
    var s := "*/" + n;
    assert s[..2] == "*/" && s[2..] == n && |s| > 1;
  }

  /** Five numbers with the same white space between them. */
  function PlainText(m: nat, h: nat, d: nat, mo: nat, w: nat, gap: string): string {
    Decimal(m) + gap + Decimal(h) + gap + Decimal(d) + gap + Decimal(mo) + gap + Decimal(w)
  }

  lemma PlainFields(m: nat, h: nat, d: nat, mo: nat, w: nat, gap: string)
    requires gap != "" && AllSpace(gap)
    ensures Fields(PlainText(m, h, d, mo, w, gap)) == [Decimal(m), Decimal(h), Decimal(d), Decimal(mo), Decimal(w)]
  {
    var words := [Decimal(m), Decimal(h), Decimal(d), Decimal(mo), Decimal(w)];
    var gaps := ["", gap, gap, gap, gap, ""];
    DecimalIsPlain(m);
    DecimalIsPlain(h);
    DecimalIsPlain(d);
    DecimalIsPlain(mo);
    DecimalIsPlain(w);
    FieldsLay(gaps, words);
    LayFive(words[0], words[1], words[2], words[3], words[4], gap);
  }

  lemma LayCons(gap: string, w: string, gaps: seq<string>, words: seq<string>)
    requires |gaps| == |words| + 1
    ensures Lay([gap] + gaps, [w] + words) == gap + w + Lay(gaps, words)
  {
  }

  lemma LayFive(a: string, b: string, c: string, d: string, e: string, gap: string)
    ensures Lay(["", gap, gap, gap, gap, ""], [a, b, c, d, e]) == a + gap + b + gap + c + gap + d + gap + e
  {
    LayCons(gap, e, [""], []);
    LayCons(gap, d, [gap, ""], [e]);
    LayCons(gap, c, [gap, gap, ""], [d, e]);
    LayCons(gap, b, [gap, gap, gap, ""], [c, d, e]);
    LayCons("", a, [gap, gap, gap, gap, ""], [b, c, d, e]);
    assert a + gap + b + gap + c + gap + d + gap + e == a + (gap + b) + (gap + c) + (gap + d) + (gap + e);
  }

  lemma NumberField(n: nat, lo: int, hi: int)
    requires hi < 0x8000_0000_0000_0000
    ensures FieldAccepted(Decimal(n), lo, hi) <==> lo <= n <= hi
  {
    DecimalIsPlain(n);
    IndexOfAbsent(Decimal(n), ',');
    assert Split(Decimal(n)) == [Decimal(n)];
    ValueAcceptedIff(n, lo, hi);
    assert Split(Decimal(n))[0] == Decimal(n);
  }

  /** A schedule of five numbers is accepted exactly for a minute, an hour, a day, a month and a weekday. */
  lemma PlainScheduleIff(m: nat, h: nat, d: nat, mo: nat, w: nat, gap: string)
    requires gap != "" && forall i :: 0 <= i < |gap| ==> gap[i] in " \t\n\r"
    ensures Accepted(PlainText(m, h, d, mo, w, gap)) <==>
            m <= 59 && h <= 23 && 1 <= d <= 31 && 1 <= mo <= 12 && w <= 7
  {
    PlainFields(m, h, d, mo, w, gap);
    NumberField(m, 0, 59);
    NumberField(h, 0, 23);
    NumberField(d, 1, 31);
    NumberField(mo, 1, 12);
    NumberField(w, 0, 7);
    FiveFields(PlainText(m, h, d, mo, w, gap), Decimal(m), Decimal(h), Decimal(d), Decimal(mo), Decimal(w));
  }

  lemma FiveFields(expr: string, a: string, b: string, c: string, d: string, e: string)
    requires Fields(expr) == [a, b, c, d, e]
    ensures Accepted(expr) <==>
            FieldAccepted(a, 0, 59) && FieldAccepted(b, 0, 23) && FieldAccepted(c, 1, 31) &&
            FieldAccepted(d, 1, 12) && FieldAccepted(e, 0, 7)
  {
    var words := Fields(expr);
    assert words[0] == a && words[1] == b && words[2] == c && words[3] == d && words[4] == e;
  }
}
