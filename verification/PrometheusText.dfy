/** `render_prometheus`: metric snapshots as text, and why the text gives them back. */
module PrometheusText {
  import opened Wrappers
  import Strings

  datatype MetricType = Counter | Gauge | Histogram

  datatype Snapshot<V> = Snapshot(name: string, kind: MetricType, labels: seq<(string, string)>, value: V)

  // How the value type prints.
  type Show<!V> = V -> string

  // ---- Printing ----

  function TypeName(kind: MetricType): string {
    if kind.Counter? then "counter" else "gauge"
  }

  function Pair(l: (string, string)): string {
    l.0 + ['='] + ['\"'] + l.1 + ['\"']
  }

  // `parts.join(",")`
  function Pairs(labels: seq<(string, string)>): string {
    if labels == [] then ""
    else if |labels| == 1 then Pair(labels[0])
    else Pair(labels[0]) + [','] + Pairs(labels[1..])
  }

  function Braces(labels: seq<(string, string)>): string {
    if labels == [] then "" else ['{'] + Pairs(labels) + ['}']
  }

  const TYPE_PREFIX := "# TYPE "

  function TypeLine<V>(s: Snapshot<V>): string {
    TYPE_PREFIX + s.name + [' '] + TypeName(s.kind) + ['\n']
  }

  function SampleLine<V>(show: Show<V>, s: Snapshot<V>): string {
    s.name + Braces(s.labels) + [' '] + show(s.value) + ['\n']
  }

  function Record<V>(show: Show<V>, s: Snapshot<V>): string {
    TypeLine(s) + SampleLine(show, s)
  }

  function Rendered<V>(show: Show<V>, snaps: seq<Snapshot<V>>): string {
    if snaps == [] then "" else Record(show, snaps[0]) + Rendered(show, snaps[1..])
  }

  method RenderPrometheus<V>(show: Show<V>, snaps: seq<Snapshot<V>>) returns (out: string)
    ensures out == Rendered(show, snaps)
    ensures Prints(show, snaps, out)
  {
    out := "";
    for i := 0 to |snaps|
      invariant out + Rendered(show, snaps[i..]) == Rendered(show, snaps)
    {
      var snap := snaps[i];
      var typeStr := match snap.kind
        case Counter => "counter"
        case Gauge => "gauge"
        case Histogram => "gauge";
      assert snaps[i..][1..] == snaps[i + 1..];
      TwoPushes(out, TypeLine(snap), SampleLine(show, snap), Rendered(show, snaps[i + 1..]));
      out := out + (TYPE_PREFIX + snap.name + [' '] + typeStr + ['\n']);
      var labels := "";
      if snap.labels != [] {
        labels := ['{'] + Pairs(snap.labels) + ['}'];
      }
      out := out + (snap.name + labels + [' '] + show(snap.value) + ['\n']);
    }
    assert snaps[|snaps|..] == [];
    assert out == Rendered(show, snaps);
    RenderedPrints(show, snaps);
  }

  // ---- The text itself ----

  function LabelText(labels: seq<(string, string)>): string {
    if labels == [] then ""
    else "{" + Strings.Join(seq(|labels|, i requires 0 <= i < |labels| => LabelPair(labels[i])), ',') + "}"
  }

  function LabelPair(l: (string, string)): string {
    l.0 + "=\"" + l.1 + "\""
  }

  // A type line and a sample line. A histogram is called a gauge.
  predicate IsRecord<V>(show: Show<V>, s: Snapshot<V>, text: string) {
    text ==
      "# TYPE " + s.name + (if s.kind == Counter then " counter\n" else " gauge\n")
      + s.name + LabelText(s.labels) + " " + show(s.value) + "\n"
  }

  function Concat(texts: seq<string>): string {
    if texts == [] then "" else texts[0] + Concat(texts[1..])
  }

  // One record for each snapshot, in order, and nothing else.
  ghost predicate Prints<V>(show: Show<V>, snaps: seq<Snapshot<V>>, out: string) {
    exists records: seq<string> :: |records| == |snaps| && out == Concat(records)
      && forall i :: 0 <= i < |snaps| ==> IsRecord(show, snaps[i], records[i])
  }

  lemma {:induction false} RenderedPrints<V>(show: Show<V>, snaps: seq<Snapshot<V>>)
    ensures Prints(show, snaps, Rendered(show, snaps))
  {
    var records := RecordsOf(show, snaps);
  }

  lemma {:induction false} RecordsOf<V>(show: Show<V>, snaps: seq<Snapshot<V>>) returns (records: seq<string>)
    ensures |records| == |snaps| && Rendered(show, snaps) == Concat(records)
    ensures forall i :: 0 <= i < |snaps| ==> IsRecord(show, snaps[i], records[i])
  {
    if snaps == [] {
      records := [];
    } else {
      var rest := RecordsOf(show, snaps[1..]);
      records := [Record(show, snaps[0])] + rest;
      RecordIsRecord(show, snaps[0]);
      assert records[1..] == rest;
      forall i | 0 <= i < |snaps| ensures IsRecord(show, snaps[i], records[i]) {
        if i > 0 {
          assert snaps[i] == snaps[1..][i - 1] && records[i] == rest[i - 1];
        }
      }
    }
  }

  lemma {:induction false} RecordIsRecord<V>(show: Show<V>, s: Snapshot<V>)
    ensures IsRecord(show, s, Record(show, s))
  {
    var t, n, l, v := TypeLine(s), s.name, LabelText(s.labels), show(s.value);
    BracesAreLabelText(s.labels);
    TypeLineIs(s);
    Assoc(t, n + l + " " + v, "\n");
    Assoc(t, n + l + " ", v);
    Assoc(t, n + l, " ");
    Assoc(t, n, l);
  }

  lemma {:induction false} TypeLineIs<V>(s: Snapshot<V>)
    ensures TypeLine(s) == "# TYPE " + s.name + if s.kind == Counter then " counter\n" else " gauge\n"
  {
    Assoc(TYPE_PREFIX + s.name, [' '], TypeName(s.kind));
    Assoc(TYPE_PREFIX + s.name, [' '] + TypeName(s.kind), ['\n']);
  }

  lemma {:induction false} BracesAreLabelText(labels: seq<(string, string)>)
    ensures Braces(labels) == LabelText(labels)
  {
    if labels != [] {
      PairsAreJoined(labels);
    }
  }

  lemma {:induction false} PairsAreJoined(labels: seq<(string, string)>)
    requires labels != []
    ensures Pairs(labels) == Strings.Join(seq(|labels|, i requires 0 <= i < |labels| => LabelPair(labels[i])), ',')
  {
    var parts := seq(|labels|, i requires 0 <= i < |labels| => LabelPair(labels[i]));
    assert parts[0] == LabelPair(labels[0]) == Pair(labels[0]);
    if |labels| > 1 {
      var rest := labels[1..];
      PairsAreJoined(rest);
      assert parts[1..] == seq(|rest|, i requires 0 <= i < |rest| => LabelPair(rest[i]));
    }
  }

  // The type line says counter exactly for a counter, and gauge exactly for the other two.
  lemma {:induction false} TypeLineIff<V>(show: Show<V>, s: Snapshot<V>, text: string)
    requires IsRecord(show, s, text)
    ensures "# TYPE " + s.name + " counter\n" <= text <==> s.kind.Counter?
    ensures "# TYPE " + s.name + " gauge\n" <= text <==> s.kind.Gauge? || s.kind.Histogram?
  {
    var head, word := "# TYPE " + s.name, if s.kind == Counter then " counter\n" else " gauge\n";
    assert text[|head|..][1] == word[1];
    assert text[|head| + 1] == word[1];
    assert (head + " counter\n")[|head| + 1] == 'c' && (head + " gauge\n")[|head| + 1] == 'g';
  }

  lemma {:induction false} TwoPushes(out: string, a: string, b: string, rest: string)
    ensures out + a + b + rest == out + ((a + b) + rest)
  {}

  // ---- What the text must not contain for it to be readable ----

  predicate NameOk(name: string) {
    ' ' !in name
  }

  predicate NameChar(c: char) {
    'a' <= c <= 'z' || 'A' <= c <= 'Z' || '0' <= c <= '9' || c == '_' || c == ':'
  }

  // Prometheus names are far narrower: letters, digits, underscores and colons.
  predicate WellFormedName(name: string) {
    name != "" && forall i :: 0 <= i < |name| ==> NameChar(name[i])
  }

  lemma {:induction false} WellFormedNamesAreOk(name: string)
    requires WellFormedName(name)
    ensures NameOk(name) && '=' !in name && '\n' !in name && '\"' !in name && ',' !in name
  {}

  function Chars(s: string): set<char> {
    set c | c in s
  }

  // What it takes to write another label after a quotation mark, up to its own opening one.
  predicate Splices(chars: set<char>) {
    ',' in chars && '=' in chars && exists c :: c in chars && NameChar(c)
  }

  // What it takes to write a record up to its first quotation mark.
  predicate OpensRecord(chars: set<char>) {
    && Chars(TYPE_PREFIX) <= chars && '\n' in chars && '{' in chars && '=' in chars
    && exists kind: MetricType :: Chars(TypeName(kind)) <= chars
  }

  // What it takes to end a record after a quotation mark, and to open another.
  ghost predicate Breaks<V(!new)>(show: Show<V>, chars: set<char>) {
    '}' in chars && ' ' in chars && OpensRecord(chars) && exists v :: Chars(show(v)) <= chars
  }

  ghost predicate ClosesOff<V(!new)>(show: Show<V>, chars: set<char>) {
    Splices(chars) || Breaks(show, chars)
  }

  // Values are never escaped: with these characters a value can pass for more than itself.
  ghost predicate Ambiguous<V(!new)>(show: Show<V>, chars: set<char>) {
    '\"' in chars && ClosesOff(show, chars)
  }

  ghost predicate Safe<V(!new)>(show: Show<V>, v: string) {
    !Ambiguous(show, Chars(v))
  }

  lemma {:induction false} MoreCharsOpen(a: set<char>, b: set<char>)
    requires OpensRecord(a) && a <= b
    ensures OpensRecord(b)
  {
    var kind: MetricType :| Chars(TypeName(kind)) <= a;
    assert Chars(TypeName(kind)) <= b;
  }

  lemma {:induction false} MoreCharsBreak<V(!new)>(show: Show<V>, a: set<char>, b: set<char>)
    requires Breaks(show, a) && a <= b
    ensures Breaks(show, b)
  {
    var v :| Chars(show(v)) <= a;
    assert Chars(show(v)) <= b;
    MoreCharsOpen(a, b);
  }

  lemma {:induction false} MoreCharsCloseOff<V(!new)>(show: Show<V>, a: set<char>, b: set<char>)
    requires ClosesOff(show, a) && a <= b
    ensures ClosesOff(show, b)
  {
    if Splices(a) {
      var c :| c in a && NameChar(c);
      assert c in b;
    } else {
      MoreCharsBreak(show, a, b);
    }
  }

  // Two regimes: any names that keep their separators, with values free of quotation marks; or
  // well-formed names, with safe values.
  datatype Rule = QuoteFree | WellFormed

  ghost predicate ValueOk<V(!new)>(show: Show<V>, v: string, rule: Rule) {
    if rule.QuoteFree? then '\"' !in v else Safe(show, v)
  }

  ghost predicate LabelOk<V(!new)>(show: Show<V>, l: (string, string), rule: Rule) {
    (if rule.QuoteFree? then '=' !in l.0 else WellFormedName(l.0)) && ValueOk(show, l.1, rule)
  }

  ghost predicate LabelsOk<V(!new)>(show: Show<V>, labels: seq<(string, string)>, rule: Rule) {
    forall i :: 0 <= i < |labels| ==> LabelOk(show, labels[i], rule)
  }

  ghost predicate SnapshotOk<V(!new)>(show: Show<V>, s: Snapshot<V>, rule: Rule) {
    (if rule.QuoteFree? then NameOk(s.name) else WellFormedName(s.name)) && LabelsOk(show, s.labels, rule)
  }

  ghost predicate AllOk<V(!new)>(show: Show<V>, snaps: seq<Snapshot<V>>, rule: Rule) {
    forall i :: 0 <= i < |snaps| ==> SnapshotOk(show, snaps[i], rule)
  }

  ghost predicate OneLineValues<V(!new)>(show: Show<V>) {
    forall v :: '\n' !in show(v)
  }

  // Values print without newlines, and different values print differently; beside safe label
  // values they also print without quotation marks.
  ghost predicate ShowOk<V(!new)>(show: Show<V>, rule: Rule) {
    && OneLineValues(show)
    && (forall v, w :: show(v) == show(w) ==> v == w)
    && (rule.WellFormed? ==> forall v :: '\"' !in show(v))
  }

  // A histogram is exported as a gauge.
  function Shown<V>(s: Snapshot<V>): Snapshot<V> {
    if s.kind.Histogram? then s.(kind := Gauge) else s
  }

  function AllShown<V>(snaps: seq<Snapshot<V>>): seq<Snapshot<V>> {
    seq(|snaps|, i requires 0 <= i < |snaps| => Shown(snaps[i]))
  }

  // ---- Cutting text ----

  // Two texts that agree up to the first separator agree before and after it.
  lemma {:induction false} Cut(a: string, x: string, b: string, y: string, c: char)
    requires a + ([c] + x) == b + ([c] + y) && c !in a && c !in b
    ensures a == b && x == y
  {
    SeparatorPlace(a, x, b, y, c);
    SeparatorPlace(b, y, a, x, c);
    assert a == (a + ([c] + x))[..|a|] && b == (b + ([c] + y))[..|a|];
    assert x == (a + ([c] + x))[|a| + 1..] && y == (b + ([c] + y))[|a| + 1..];
  }

  lemma {:induction false} SeparatorPlace(a: string, x: string, b: string, y: string, c: char)
    requires a + ([c] + x) == b + ([c] + y)
    ensures |a| < |b| ==> c in b
  {
    var s := a + ([c] + x);
    assert s[|a|] == c;
    if |a| < |b| {
      assert (b + ([c] + y))[|a|] == b[|a|];
    }
  }

  // A common prefix can be taken off.
  lemma {:induction false} Strip(p: string, x: string, y: string)
    requires p + x == p + y
    ensures x == y
  {
    assert (p + x)[|p|..] == x && (p + y)[|p|..] == y;
  }

  // ---- The same text, from the front: a piece and then everything after it ----

  function PairThen(l: (string, string), x: string): string {
    l.0 + (['='] + (['\"'] + (l.1 + (['\"'] + x))))
  }

  // What follows the first pair.
  function PairsTail(labels: seq<(string, string)>, x: string): string
    requires labels != []
  {
    if |labels| == 1 then ['}'] + x else [','] + PairThen(labels[1], PairsTail(labels[1..], x))
  }

  function PairsThen(labels: seq<(string, string)>, x: string): string
    requires labels != []
  {
    PairThen(labels[0], PairsTail(labels, x))
  }

  function LabelsThen(labels: seq<(string, string)>, x: string): string {
    if labels == [] then [' '] + x else ['{'] + PairsThen(labels, [' '] + x)
  }

  function ValueThen(v: string, x: string): string {
    v + (['\n'] + x)
  }

  function TypeThen(name: string, kind: MetricType, x: string): string {
    name + ([' '] + (TypeName(kind) + (['\n'] + x)))
  }

  lemma {:induction false} Assoc(a: string, b: string, c: string)
    ensures (a + b) + c == a + (b + c)
  {}

  lemma {:induction false} PairIsFront(l: (string, string), x: string)
    ensures Pair(l) + x == PairThen(l, x)
  {}

  lemma {:induction false} PairsAreFront(labels: seq<(string, string)>, x: string)
    requires labels != []
    ensures Pairs(labels) + (['}'] + x) == PairsThen(labels, x)
  {
    if |labels| == 1 {
      PairIsFront(labels[0], ['}'] + x);
    } else {
      PairsAreFront(labels[1..], x);
      Assoc(Pair(labels[0]) + [','], Pairs(labels[1..]), ['}'] + x);
      Assoc(Pair(labels[0]), [','], PairsThen(labels[1..], x));
      PairIsFront(labels[0], [','] + PairsThen(labels[1..], x));
    }
  }

  lemma {:induction false} BracesAreFront(labels: seq<(string, string)>, x: string)
    ensures Braces(labels) + ([' '] + x) == LabelsThen(labels, x)
  {
    if labels == [] {
      assert "" + ([' '] + x) == [' '] + x;
    } else {
      PairsAreFront(labels, [' '] + x);
      Assoc(['{'] + Pairs(labels), ['}'], [' '] + x);
      Assoc(['{'], Pairs(labels), ['}'] + ([' '] + x));
    }
  }

  lemma {:induction false} SampleIsFront<V>(show: Show<V>, s: Snapshot<V>, x: string)
    ensures SampleLine(show, s) + x == s.name + LabelsThen(s.labels, ValueThen(show(s.value), x))
  {
    var v := show(s.value);
    Assoc(s.name + Braces(s.labels) + [' '] + v, ['\n'], x);
    Assoc(s.name + Braces(s.labels) + [' '], v, ['\n'] + x);
    Assoc(s.name + Braces(s.labels), [' '], ValueThen(v, x));
    Assoc(s.name, Braces(s.labels), [' '] + ValueThen(v, x));
    BracesAreFront(s.labels, ValueThen(v, x));
  }

  lemma {:induction false} TypeIsFront<V>(s: Snapshot<V>, x: string)
    ensures TypeLine(s) + x == TYPE_PREFIX + TypeThen(s.name, s.kind, x)
  {}

  // ---- What stands before a quotation mark ----

  // Whatever is in front of a quotation mark in the text, these characters are among it.
  ghost predicate Before(t: string, chars: set<char>) {
    forall j :: 0 <= j < |t| && t[j] == '\"' ==> chars <= Chars(t[..j])
  }

  ghost predicate HeadOk(t: string) {
    forall j :: 0 <= j < |t| && t[j] == '\"' ==> OpensRecord(Chars(t[..j]))
  }

  ghost predicate TailOk<V(!new)>(show: Show<V>, t: string) {
    forall j :: 0 <= j < |t| && t[j] == '\"' ==> ClosesOff(show, Chars(t[..j]))
  }

  // The same for the rest of a line after the closing brace.
  ghost predicate LineOk<V(!new)>(show: Show<V>, t: string) {
    forall j :: 0 <= j < |t| && t[j] == '\"' ==> Breaks(show, Chars(t[..j]) + {'}'})
  }

  lemma {:induction false} QuoteLater(p: string, u: string, j: nat)
    requires '\"' !in p && j < |p + u| && (p + u)[j] == '\"'
    ensures |p| <= j && u[j - |p|] == '\"'
    ensures Chars((p + u)[..j]) == Chars(p) + Chars(u[..j - |p|])
  {
    assert (p + u)[..j] == p + u[..j - |p|];
  }

  lemma {:induction false} BeforeLater(p: string, u: string, chars: set<char>)
    requires '\"' !in p && Before(u, chars)
    ensures Before(p + u, Chars(p) + chars)
  {
    forall j | 0 <= j < |p + u| && (p + u)[j] == '\"' ensures Chars(p) + chars <= Chars((p + u)[..j]) {
      QuoteLater(p, u, j);
    }
  }

  lemma {:induction false} HeadLater(p: string, u: string)
    requires '\"' !in p && HeadOk(u)
    ensures HeadOk(p + u)
  {
    forall j | 0 <= j < |p + u| && (p + u)[j] == '\"' ensures OpensRecord(Chars((p + u)[..j])) {
      QuoteLater(p, u, j);
      MoreCharsOpen(Chars(u[..j - |p|]), Chars((p + u)[..j]));
    }
  }

  lemma {:induction false} BeforeOpens(t: string, chars: set<char>)
    requires Before(t, chars) && OpensRecord(chars)
    ensures HeadOk(t)
  {
    forall j | 0 <= j < |t| && t[j] == '\"' ensures OpensRecord(Chars(t[..j])) {
      MoreCharsOpen(chars, Chars(t[..j]));
    }
  }

  // A record with labels has its first quotation mark behind its first label's equals sign.
  lemma {:induction false} LabelledRecordOpens(name: string, kind: MetricType, k: string, x: string)
    requires '\"' !in name && '\"' !in k && Before(x, {})
    ensures HeadOk(TYPE_PREFIX + TypeThen(name, kind, name + (['{'] + (k + (['='] + x)))))
  {
    var tn := TypeName(kind);
    BeforeLater(['='], x, {});
    var t1, c1 := ['='] + x, Chars(['=']) + {};
    BeforeLater(k, t1, c1);
    var t2, c2 := k + t1, Chars(k) + c1;
    BeforeLater(['{'], t2, c2);
    var t3, c3 := ['{'] + t2, Chars(['{']) + c2;
    BeforeLater(name, t3, c3);
    var t4, c4 := name + t3, Chars(name) + c3;
    BeforeLater(['\n'], t4, c4);
    var t5, c5 := ['\n'] + t4, Chars(['\n']) + c4;
    BeforeLater(tn, t5, c5);
    var t6, c6 := tn + t5, Chars(tn) + c5;
    BeforeLater([' '], t6, c6);
    var t7, c7 := [' '] + t6, Chars([' ']) + c6;
    BeforeLater(name, t7, c7);
    var t8, c8 := name + t7, Chars(name) + c7;
    BeforeLater(TYPE_PREFIX, t8, c8);
    var c9 := Chars(TYPE_PREFIX) + c8;
    assert OpensRecord(c9) by {
      assert '=' in c1 && '{' in c3 && '\n' in c5;
      assert Chars(TypeName(kind)) <= c9;
    }
    BeforeOpens(TYPE_PREFIX + t8, c9);
  }

  lemma {:induction false} RecordHead<V(!new)>(show: Show<V>, s: Snapshot<V>, x: string)
    requires ShowOk(show, WellFormed) && SnapshotOk(show, s, WellFormed) && HeadOk(x)
    ensures HeadOk(Record(show, s) + x)
  {
    WellFormedNamesAreOk(s.name);
    if s.labels == [] {
      assert '\"' !in Record(show, s);
      HeadLater(Record(show, s), x);
    } else {
      var l, rest := s.labels[0], PairsTail(s.labels, [' '] + ValueThen(show(s.value), x));
      WellFormedNamesAreOk(l.0);
      Assoc(TypeLine(s), SampleLine(show, s), x);
      TypeIsFront(s, SampleLine(show, s) + x);
      SampleIsFront(show, s, x);
      LabelledRecordOpens(s.name, s.kind, l.0, ['\"'] + (l.1 + (['\"'] + rest)));
    }
  }

  lemma {:induction false} RenderedHead<V(!new)>(show: Show<V>, snaps: seq<Snapshot<V>>)
    requires ShowOk(show, WellFormed) && AllOk(show, snaps, WellFormed)
    ensures HeadOk(Rendered(show, snaps))
  {
    if snaps == [] {
    } else {
      RenderedHead(show, snaps[1..]);
      RecordHead(show, snaps[0], Rendered(show, snaps[1..]));
    }
  }

  // ---- The labels are readable ----

  // A value that runs past another's closing quotation mark has one in it, and closes off.
  lemma {:induction false} QuotePlace<V(!new)>(show: Show<V>, a: string, x: string, b: string, y: string)
    requires a + (['\"'] + x) == b + (['\"'] + y) && |a| < |b|
    ensures '\"' in b
    ensures TailOk(show, x) ==> ClosesOff(show, Chars(b))
  {
    var s, j := a + (['\"'] + x), |b| - |a| - 1;
    assert s[..|b|] == b;
    assert b[|a|] == s[|a|] == '\"';
    assert x[j] == s[|b|] == '\"';
    assert b == a + ['\"'] + x[..j] by {
      assert s[..|b|] == a + ['\"'] + x[..j];
    }
    if TailOk(show, x) {
      MoreCharsCloseOff(show, Chars(x[..j]), Chars(b));
    }
  }

  lemma {:induction false} ValueReadable<V(!new)>(show: Show<V>, a: string, x: string, b: string, y: string, rule: Rule)
    requires a + (['\"'] + x) == b + (['\"'] + y) && ValueOk(show, a, rule) && ValueOk(show, b, rule)
    requires rule.WellFormed? ==> TailOk(show, x) && TailOk(show, y)
    ensures a == b && x == y
  {
    assert !(|a| < |b|) by {
      if |a| < |b| {
        QuotePlace(show, a, x, b, y);
      }
    }
    assert !(|b| < |a|) by {
      if |b| < |a| {
        QuotePlace(show, b, y, a, x);
      }
    }
    assert a == (a + (['\"'] + x))[..|a|] && b == (b + (['\"'] + y))[..|a|];
    Assoc(a, ['\"'], x);
    Assoc(a, ['\"'], y);
    Strip(a + ['\"'], x, y);
  }

  lemma {:induction false} PairReadable<V(!new)>(show: Show<V>, a: (string, string), x: string,
                                                 b: (string, string), y: string, rule: Rule)
    requires PairThen(a, x) == PairThen(b, y) && LabelOk(show, a, rule) && LabelOk(show, b, rule)
    requires rule.WellFormed? ==> TailOk(show, x) && TailOk(show, y)
    ensures a == b && x == y
  {
    var p, q := a.1 + (['\"'] + x), b.1 + (['\"'] + y);
    if rule.WellFormed? {
      WellFormedNamesAreOk(a.0);
      WellFormedNamesAreOk(b.0);
    }
    Cut(a.0, ['\"'] + p, b.0, ['\"'] + q, '=');
    Strip(['\"'], p, q);
    ValueReadable(show, a.1, x, b.1, y, rule);
  }

  // After a pair comes the end of the record, or a comma and a well-formed name.
  lemma {:induction false} PairsTailOk<V(!new)>(show: Show<V>, labels: seq<(string, string)>, x: string)
    requires labels != [] && LabelsOk(show, labels, WellFormed) && LineOk(show, x)
    ensures TailOk(show, PairsTail(labels, x))
  {
    var t := PairsTail(labels, x);
    forall j | 0 <= j < |t| && t[j] == '\"' ensures ClosesOff(show, Chars(t[..j])) {
      if |labels| == 1 {
        QuoteLater(['}'], x, j);
        assert Chars(['}']) == {'}'};
        assert Breaks(show, Chars(x[..j - 1]) + {'}'});
        assert Chars(t[..j]) == Chars(x[..j - 1]) + {'}'};
      } else {
        NextPairSplices(labels[1].0, labels[1].1 + (['\"'] + PairsTail(labels[1..], x)), j);
      }
    }
  }

  lemma {:induction false} NextPairSplices(k: string, x: string, j: nat)
    requires WellFormedName(k)
    requires var t := [','] + (k + (['='] + (['\"'] + x))); j < |t| && t[j] == '\"'
    ensures Splices(Chars(([','] + (k + (['='] + (['\"'] + x))))[..j]))
  {
    var t1 := ['='] + (['\"'] + x);
    WellFormedNamesAreOk(k);
    BeforeLater(['='], ['\"'] + x, {});
    BeforeLater(k, t1, Chars(['=']) + {});
    BeforeLater([','], k + t1, Chars(k) + (Chars(['=']) + {}));
    var chars := Chars(([','] + (k + t1))[..j]);
    assert ',' in Chars([',']) && '=' in Chars(['=']) && k[0] in Chars(k);
    assert k[0] in chars && NameChar(k[0]);
  }

  // The pairs up to the closing brace, then the rest of the line.
  lemma {:induction false} PairsReadable<V(!new)>(show: Show<V>, a: seq<(string, string)>, x: string,
                                                  b: seq<(string, string)>, y: string, rule: Rule)
    requires a != [] && b != [] && LabelsOk(show, a, rule) && LabelsOk(show, b, rule)
    requires rule.WellFormed? ==> LineOk(show, x) && LineOk(show, y)
    requires PairsThen(a, x) == PairsThen(b, y)
    ensures a == b && x == y
  {
    FirstPairReadable(show, a, x, b, y, rule);
    TailReadable(show, a, x, b, y, rule);
    assert a == [a[0]] + a[1..] && b == [b[0]] + b[1..];
  }

  lemma {:induction false} FirstPairReadable<V(!new)>(show: Show<V>, a: seq<(string, string)>, x: string,
                                                      b: seq<(string, string)>, y: string, rule: Rule)
    requires a != [] && b != [] && LabelsOk(show, a, rule) && LabelsOk(show, b, rule)
    requires rule.WellFormed? ==> LineOk(show, x) && LineOk(show, y)
    requires PairsThen(a, x) == PairsThen(b, y)
    ensures a[0] == b[0] && PairsTail(a, x) == PairsTail(b, y)
  {
    if rule.WellFormed? {
      PairsTailOk(show, a, x);
      PairsTailOk(show, b, y);
    }
    PairReadable(show, a[0], PairsTail(a, x), b[0], PairsTail(b, y), rule);
  }

  // A comma says that another pair follows, a brace that none does.
  lemma {:induction false} TailReadable<V(!new)>(show: Show<V>, a: seq<(string, string)>, x: string,
                                                 b: seq<(string, string)>, y: string, rule: Rule)
    requires a != [] && b != [] && LabelsOk(show, a, rule) && LabelsOk(show, b, rule)
    requires rule.WellFormed? ==> LineOk(show, x) && LineOk(show, y)
    requires PairsTail(a, x) == PairsTail(b, y)
    ensures a[1..] == b[1..] && x == y
  {
    assert PairsTail(a, x)[0] == PairsTail(b, y)[0];
    if |a| == 1 {
      Strip(['}'], x, y);
    } else {
      Strip([','], PairsThen(a[1..], x), PairsThen(b[1..], y));
      FirstPairReadable(show, a[1..], x, b[1..], y, rule);
      TailReadable(show, a[1..], x, b[1..], y, rule);
      assert a[1..] == [a[1]] + a[1..][1..] && b[1..] == [b[1]] + b[1..][1..];
    }
  }

  // Braces are there exactly when there are labels.
  lemma {:induction false} LabelsReadable<V(!new)>(show: Show<V>, a: seq<(string, string)>, x: string,
                                                   b: seq<(string, string)>, y: string, rule: Rule)
    requires LabelsOk(show, a, rule) && LabelsOk(show, b, rule)
    requires rule.WellFormed? ==> LineOk(show, [' '] + x) && LineOk(show, [' '] + y)
    requires LabelsThen(a, x) == LabelsThen(b, y)
    ensures a == b && x == y
  {
    assert LabelsThen(a, x)[0] == LabelsThen(b, y)[0];
    if a == [] {
      Strip([' '], x, y);
    } else {
      Strip(['{'], PairsThen(a, [' '] + x), PairsThen(b, [' '] + y));
      PairsReadable(show, a, [' '] + x, b, [' '] + y, rule);
      Strip([' '], x, y);
    }
  }

  // ---- A record is readable ----

  lemma {:induction false} TypeReadable(m: string, j: MetricType, x: string, n: string, k: MetricType, y: string)
    requires NameOk(m) && NameOk(n) && TypeThen(m, j, x) == TypeThen(n, k, y)
    ensures m == n && x == y && (j.Counter? <==> k.Counter?)
  {
    Cut(m, TypeName(j) + (['\n'] + x), n, TypeName(k) + (['\n'] + y), ' ');
    Cut(TypeName(j), x, TypeName(k), y, '\n');
    TypeNamesDiffer(j, k);
  }

  lemma {:induction false} RecordReadable<V(!new)>(show: Show<V>, rule: Rule, s: Snapshot<V>, x: string,
                                                   t: Snapshot<V>, y: string)
    requires ShowOk(show, rule) && SnapshotOk(show, s, rule) && SnapshotOk(show, t, rule)
    requires rule.WellFormed? ==> HeadOk(x) && HeadOk(y)
    requires Record(show, s) + x == Record(show, t) + y
    ensures Shown(s) == Shown(t) && x == y
  {
    Assoc(TypeLine(s), SampleLine(show, s), x);
    Assoc(TypeLine(t), SampleLine(show, t), y);
    TypeIsFront(s, SampleLine(show, s) + x);
    TypeIsFront(t, SampleLine(show, t) + y);
    Strip(TYPE_PREFIX, TypeThen(s.name, s.kind, SampleLine(show, s) + x),
          TypeThen(t.name, t.kind, SampleLine(show, t) + y));
    if rule.WellFormed? {
      WellFormedNamesAreOk(s.name);
      WellFormedNamesAreOk(t.name);
    }
    TypeReadable(s.name, s.kind, SampleLine(show, s) + x, t.name, t.kind, SampleLine(show, t) + y);
    SampleReadable(show, rule, s, x, t, y);
  }

  lemma {:induction false} SampleReadable<V(!new)>(show: Show<V>, rule: Rule, s: Snapshot<V>, x: string,
                                                   t: Snapshot<V>, y: string)
    requires ShowOk(show, rule) && SnapshotOk(show, s, rule) && SnapshotOk(show, t, rule) && s.name == t.name
    requires rule.WellFormed? ==> HeadOk(x) && HeadOk(y)
    requires SampleLine(show, s) + x == SampleLine(show, t) + y
    ensures s.labels == t.labels && s.value == t.value && x == y
  {
    SampleIsFront(show, s, x);
    SampleIsFront(show, t, y);
    var p, q := ValueThen(show(s.value), x), ValueThen(show(t.value), y);
    Strip(s.name, LabelsThen(s.labels, p), LabelsThen(t.labels, q));
    if rule.WellFormed? {
      ValueEndsLine(show, s.value, x);
      ValueEndsLine(show, t.value, y);
    }
    LabelsReadable(show, s.labels, p, t.labels, q, rule);
    Cut(show(s.value), x, show(t.value), y, '\n');
  }

  lemma {:induction false} ValueEndsLine<V(!new)>(show: Show<V>, v: V, x: string)
    requires '\"' !in show(v) && HeadOk(x)
    ensures LineOk(show, [' '] + ValueThen(show(v), x))
  {
    var p := [' '] + show(v) + ['\n'];
    var t := [' '] + ValueThen(show(v), x);
    assert t == p + x;
    forall j | 0 <= j < |t| && t[j] == '\"' ensures Breaks(show, Chars(t[..j]) + {'}'}) {
      QuoteLater(p, x, j);
      MoreCharsOpen(Chars(x[..j - |p|]), Chars(t[..j]) + {'}'});
      assert p[0] == ' ' && Chars(show(v)) <= Chars(p);
    }
  }

  lemma {:induction false} TypeNamesDiffer(a: MetricType, b: MetricType)
    requires TypeName(a) == TypeName(b)
    ensures a.Counter? <==> b.Counter?
  {}

  // ---- Main results ----

  // The text determines the snapshots, up to histograms being shown as gauges: with values free
  // of quotation marks for any names, and with safe values for well-formed ones.
  lemma {:induction false} TextDeterminesSnapshots<V(!new)>(show: Show<V>, rule: Rule, a: seq<Snapshot<V>>, b: seq<Snapshot<V>>)
    requires ShowOk(show, rule) && AllOk(show, a, rule) && AllOk(show, b, rule)
    ensures Rendered(show, a) == Rendered(show, b) <==> AllShown(a) == AllShown(b)
  {
    if Rendered(show, a) == Rendered(show, b) {
      SameTextSameShown(show, rule, a, b);
    }
    if AllShown(a) == AllShown(b) {
      SameShownSameText(show, a, b);
    }
  }

  lemma {:induction false} SameTextSameShown<V(!new)>(show: Show<V>, rule: Rule, a: seq<Snapshot<V>>, b: seq<Snapshot<V>>)
    requires ShowOk(show, rule) && AllOk(show, a, rule) && AllOk(show, b, rule)
    requires Rendered(show, a) == Rendered(show, b)
    ensures AllShown(a) == AllShown(b)
  {
    assert a == [] <==> |Rendered(show, a)| == 0;
    assert b == [] <==> |Rendered(show, b)| == 0;
    if a == [] {
    } else {
      FirstRecordReadable(show, rule, a, b);
      SameTextSameShown(show, rule, a[1..], b[1..]);
      AllShownStep(a);
      AllShownStep(b);
    }
  }

  lemma {:induction false} FirstRecordReadable<V(!new)>(show: Show<V>, rule: Rule, a: seq<Snapshot<V>>, b: seq<Snapshot<V>>)
    requires ShowOk(show, rule) && AllOk(show, a, rule) && AllOk(show, b, rule) && a != [] && b != []
    requires Rendered(show, a) == Rendered(show, b)
    ensures Shown(a[0]) == Shown(b[0]) && Rendered(show, a[1..]) == Rendered(show, b[1..])
  {
    if rule.WellFormed? {
      RenderedHead(show, a[1..]);
      RenderedHead(show, b[1..]);
    }
    RecordReadable(show, rule, a[0], Rendered(show, a[1..]), b[0], Rendered(show, b[1..]));
  }

  lemma {:induction false} AllShownStep<V>(a: seq<Snapshot<V>>)
    requires a != []
    ensures AllShown(a) == [Shown(a[0])] + AllShown(a[1..])
  {}

  lemma {:induction false} SameShownSameText<V>(show: Show<V>, a: seq<Snapshot<V>>, b: seq<Snapshot<V>>)
    requires AllShown(a) == AllShown(b)
    ensures Rendered(show, a) == Rendered(show, b)
  {
    assert |a| == |AllShown(a)| == |AllShown(b)| == |b|;
    if a == [] {
    } else {
      AllShownStep(a);
      AllShownStep(b);
      assert Shown(a[0]) == AllShown(a)[0] == AllShown(b)[0] == Shown(b[0]);
      assert AllShown(a[1..]) == AllShown(a)[1..] == AllShown(b[1..]);
      SameShownSameText(show, a[1..], b[1..]);
    }
  }

  // Values are not escaped: one label whose value holds quotation marks prints like two labels.
  lemma {:induction false} QuotesCollide<V>(show: Show<V>, v: V, x: string, k: string, y: string)
    ensures var one := [Snapshot("m", Gauge, [("a", x + ['\"'] + [','] + k + ['='] + ['\"'] + y)], v)];
      var two := [Snapshot("m", Gauge, [("a", x), (k, y)], v)];
      Rendered(show, one) == Rendered(show, two) && AllShown(one) != AllShown(two)
  {
    var p, q := ("a", x + ['\"'] + [','] + k + ['='] + ['\"'] + y), [("a", x), (k, y)];
    assert q[1..] == [(k, y)];
    assert Pairs(q) == Pair(q[0]) + [','] + Pair((k, y));
    assert Pairs([p]) == Pair(p) == Pairs(q);
    var one, two := Snapshot("m", Gauge, [p], v), Snapshot("m", Gauge, q, v);
    assert Record(show, one) == Record(show, two);
    assert [one][1..] == [] && [two][1..] == [];
    assert AllShown([one])[0] == one && AllShown([two])[0] == two;
    assert |one.labels| != |two.labels|;
  }

  // And one that also holds the end of a record and the beginning of another like two snapshots.
  function Break(sv: string, kind: MetricType, g: string, x: string): string {
    ['\"'] + (['}'] + ([' '] + (sv + (['\n'] + (TYPE_PREFIX + TypeThen(g, kind, g + (['{'] + (g + (['='] + x)))))))))
  }

  lemma {:induction false} BreakThen(sv: string, kind: MetricType, g: string, x: string, y: string)
    ensures Break(sv, kind, g, x) + y == Break(sv, kind, g, x + y)
  {
    var tn := TypeName(kind);
    var t1 := ['='] + x;
    var t2 := g + t1;
    var t3 := ['{'] + t2;
    var t4 := g + t3;
    var t5 := ['\n'] + t4;
    var t6 := tn + t5;
    var t7 := [' '] + t6;
    var t8 := g + t7;
    var t9 := TYPE_PREFIX + t8;
    var t10 := ['\n'] + t9;
    var t11 := sv + t10;
    var t12 := [' '] + t11;
    var t13 := ['}'] + t12;
    Assoc(['='], x, y);
    Assoc(g, t1, y);
    Assoc(['{'], t2, y);
    Assoc(g, t3, y);
    Assoc(['\n'], t4, y);
    Assoc(tn, t5, y);
    Assoc([' '], t6, y);
    Assoc(g, t7, y);
    Assoc(TYPE_PREFIX, t8, y);
    Assoc(['\n'], t9, y);
    Assoc(sv, t10, y);
    Assoc([' '], t11, y);
    Assoc(['}'], t12, y);
    Assoc(['\"'], t13, y);
  }

  lemma {:induction false} OneLabelRecord<V>(show: Show<V>, name: string, kind: MetricType, l: (string, string), v: V, x: string)
    ensures Record(show, Snapshot(name, kind, [l], v)) + x ==
      TYPE_PREFIX + TypeThen(name, kind, name + (['{'] + (l.0 + (['='] + (['\"'] + (l.1 + (['\"'] +
        (['}'] + ([' '] + (show(v) + (['\n'] + x)))))))))))
  {
    var s := Snapshot(name, kind, [l], v);
    Assoc(TypeLine(s), SampleLine(show, s), x);
    TypeIsFront(s, SampleLine(show, s) + x);
    SampleIsFront(show, s, x);
  }

  lemma {:induction false} RenderedOne<V>(show: Show<V>, s: Snapshot<V>)
    ensures Rendered(show, [s]) == Record(show, s) + ""
  {
    assert [s][1..] == [];
  }

  lemma {:induction false} BreaksCollide<V>(show: Show<V>, v: V, kind: MetricType, g: string)
    ensures var one := [Snapshot("m", Gauge, [("a", Break(show(v), kind, g, ['\"']))], v)];
      var two := [Snapshot("m", Gauge, [("a", "")], v), Snapshot(g, kind, [(g, "")], v)];
      Rendered(show, one) == Rendered(show, two) && AllShown(one) != AllShown(two)
  {
    var sv, value := show(v), Break(show(v), kind, g, ['\"']);
    var rest := ['\"'] + (['}'] + ([' '] + (sv + (['\n'] + ""))));
    var s, t, u := Snapshot("m", Gauge, [("a", value)], v), Snapshot("m", Gauge, [("a", "")], v), Snapshot(g, kind, [(g, "")], v);
    OneLabelRecord(show, "m", Gauge, ("a", value), v, "");
    OneLabelRecord(show, "m", Gauge, ("a", ""), v, Record(show, u) + "");
    OneLabelRecord(show, g, kind, (g, ""), v, "");
    BreakThen(sv, kind, g, ['\"'], rest);
    assert "" + rest == rest;
    assert "" + Break(sv, kind, g, ['\"'] + rest) == Break(sv, kind, g, ['\"'] + rest);
    RenderedOne(show, s);
    RenderedOne(show, u);
    assert [t, u][1..] == [u];
    assert Rendered(show, [t, u]) == Record(show, t) + (Record(show, u) + "");
    assert |AllShown([s])| == 1 && |AllShown([t, u])| == 2;
  }

  // Well-formed names, and label values written with the given characters.
  predicate Over<V>(snaps: seq<Snapshot<V>>, alphabet: set<char>) {
    forall i :: 0 <= i < |snaps| ==> WellFormedName(snaps[i].name) && LabelsOver(snaps[i].labels, alphabet)
  }

  predicate LabelsOver(labels: seq<(string, string)>, alphabet: set<char>) {
    forall i :: 0 <= i < |labels| ==> WellFormedName(labels[i].0) && Chars(labels[i].1) <= alphabet
  }

  ghost predicate Determined<V(!new)>(show: Show<V>, alphabet: set<char>) {
    forall a: seq<Snapshot<V>>, b: seq<Snapshot<V>> ::
      Over(a, alphabet) && Over(b, alphabet) && Rendered(show, a) == Rendered(show, b) ==> AllShown(a) == AllShown(b)
  }

  // Whatever characters label values may use, the text determines the snapshots exactly when they
  // do not include a quotation mark together with what it takes to write another label (a comma,
  // a name, an equals sign) or the end of a record and the beginning of another.
  lemma {:induction false} DeterminedIff<V(!new)>(show: Show<V>, alphabet: set<char>, v: V)
    requires ShowOk(show, WellFormed)
    ensures Determined(show, alphabet) <==> !Ambiguous(show, alphabet)
  {
    if Ambiguous(show, alphabet) {
      if Splices(alphabet) {
        SpliceUndetermined(show, alphabet, v);
      } else {
        BreakUndetermined(show, alphabet);
      }
    } else {
      forall a: seq<Snapshot<V>>, b: seq<Snapshot<V>>
        | Over(a, alphabet) && Over(b, alphabet) && Rendered(show, a) == Rendered(show, b)
        ensures AllShown(a) == AllShown(b)
      {
        OverIsOk(show, a, alphabet);
        OverIsOk(show, b, alphabet);
        SameTextSameShown(show, WellFormed, a, b);
      }
    }
  }

  lemma {:induction false} OverIsOk<V(!new)>(show: Show<V>, snaps: seq<Snapshot<V>>, alphabet: set<char>)
    requires Over(snaps, alphabet) && !Ambiguous(show, alphabet)
    ensures AllOk(show, snaps, WellFormed)
  {
    forall i, j | 0 <= i < |snaps| && 0 <= j < |snaps[i].labels| ensures Safe(show, snaps[i].labels[j].1) {
      WrittenIsSafe(show, snaps[i].labels[j].1, alphabet);
    }
  }

  lemma {:induction false} WrittenIsSafe<V(!new)>(show: Show<V>, v: string, alphabet: set<char>)
    requires Chars(v) <= alphabet && !Ambiguous(show, alphabet)
    ensures Safe(show, v)
  {
    if Ambiguous(show, Chars(v)) {
      MoreCharsCloseOff(show, Chars(v), alphabet);
    }
  }

  lemma {:induction false} OverOne<V>(name: string, kind: MetricType, k: string, x: string, v: V, alphabet: set<char>)
    requires WellFormedName(name) && WellFormedName(k) && Chars(x) <= alphabet
    ensures Over([Snapshot(name, kind, [(k, x)], v)], alphabet)
  {
    assert LabelsOver([(k, x)], alphabet);
  }

  lemma {:induction false} SpliceUndetermined<V(!new)>(show: Show<V>, alphabet: set<char>, v: V)
    requires '\"' in alphabet && Splices(alphabet)
    ensures !Determined(show, alphabet)
  {
    var c :| c in alphabet && NameChar(c);
    var k := [c];
    var value := "" + ['\"'] + [','] + k + ['='] + ['\"'] + "";
    var one, two := [Snapshot("m", Gauge, [("a", value)], v)], [Snapshot("m", Gauge, [("a", ""), (k, "")], v)];
    QuotesCollide(show, v, "", k, "");
    assert value == ['\"', ',', c, '=', '\"'];
    OverOne("m", Gauge, "a", value, v, alphabet);
    assert LabelsOver([("a", ""), (k, "")], alphabet);
    assert Over(two, alphabet);
  }

  lemma {:induction false} BreakUndetermined<V(!new)>(show: Show<V>, alphabet: set<char>)
    requires '\"' in alphabet && Breaks(show, alphabet)
    ensures !Determined(show, alphabet)
  {
    var v :| Chars(show(v)) <= alphabet;
    var kind: MetricType :| Chars(TypeName(kind)) <= alphabet;
    var g := NameFromType(kind);
    var value := Break(show(v), kind, g, ['\"']);
    BreakIsWritten(show(v), kind, g, alphabet);
    BreaksCollide(show, v, kind, g);
    OverOne("m", Gauge, "a", value, v, alphabet);
    OverOne("m", Gauge, "a", "", v, alphabet);
    OverOne(g, kind, g, "", v, alphabet);
    OverBoth(Snapshot("m", Gauge, [("a", "")], v), Snapshot(g, kind, [(g, "")], v), alphabet);
  }

  lemma {:induction false} OverBoth<V>(s: Snapshot<V>, t: Snapshot<V>, alphabet: set<char>)
    requires Over([s], alphabet) && Over([t], alphabet)
    ensures Over([s, t], alphabet)
  {
    assert [s][0] == s && [t][0] == t;
  }

  // A metric name made of the letters of a type.
  lemma {:induction false} NameFromType(kind: MetricType) returns (g: string)
    ensures WellFormedName(g) && Chars(g) <= Chars(TypeName(kind))
  {
    g := TypeName(kind)[..1];
    assert TypeName(kind)[0] == 'c' || TypeName(kind)[0] == 'g';
  }

  lemma {:induction false} CharsWithin(p: string, u: string, alphabet: set<char>)
    requires Chars(p) <= alphabet && Chars(u) <= alphabet
    ensures Chars(p + u) <= alphabet
  {}

  lemma {:induction false} BreakIsWritten(sv: string, kind: MetricType, g: string, alphabet: set<char>)
    requires '\"' in alphabet && '}' in alphabet && ' ' in alphabet && OpensRecord(alphabet)
    requires Chars(sv) <= alphabet && Chars(TypeName(kind)) <= alphabet && Chars(g) <= alphabet
    ensures Chars(Break(sv, kind, g, ['\"'])) <= alphabet
  {
    var t4 := g + (['{'] + (g + (['='] + ['\"'])));
    CharsWithin(['='], ['\"'], alphabet);
    CharsWithin(g, ['='] + ['\"'], alphabet);
    CharsWithin(['{'], g + (['='] + ['\"']), alphabet);
    CharsWithin(g, ['{'] + (g + (['='] + ['\"'])), alphabet);
    TypeIsWritten(g, kind, t4, alphabet);
    var t9 := TYPE_PREFIX + TypeThen(g, kind, t4);
    CharsWithin(TYPE_PREFIX, TypeThen(g, kind, t4), alphabet);
    CharsWithin(['\n'], t9, alphabet);
    CharsWithin(sv, ['\n'] + t9, alphabet);
    CharsWithin([' '], sv + (['\n'] + t9), alphabet);
    CharsWithin(['}'], [' '] + (sv + (['\n'] + t9)), alphabet);
    CharsWithin(['\"'], ['}'] + ([' '] + (sv + (['\n'] + t9))), alphabet);
  }

  lemma {:induction false} TypeIsWritten(g: string, kind: MetricType, x: string, alphabet: set<char>)
    requires ' ' in alphabet && '\n' in alphabet && Chars(x) <= alphabet
    requires Chars(TypeName(kind)) <= alphabet && Chars(g) <= alphabet
    ensures Chars(TypeThen(g, kind, x)) <= alphabet
  {
    var tn := TypeName(kind);
    CharsWithin(['\n'], x, alphabet);
    CharsWithin(tn, ['\n'] + x, alphabet);
    CharsWithin([' '], tn + (['\n'] + x), alphabet);
    CharsWithin(g, [' '] + (tn + (['\n'] + x)), alphabet);
  }

  // ---- Lines ----

  function Newlines(s: string): nat {
    if s == "" then 0 else Newlines(s[1..]) + if s[0] == '\n' then 1 else 0
  }

  predicate OneLine(s: string) {
    '\n' !in s
  }

  lemma {:induction false} NewlinesConcat(s: string, t: string)
    ensures Newlines(s + t) == Newlines(s) + Newlines(t)
  {
    if s == "" {
      assert s + t == t;
    } else {
      assert (s + t)[1..] == s[1..] + t;
      NewlinesConcat(s[1..], t);
    }
  }

  lemma {:induction false} OneLineHasNone(s: string)
    ensures OneLine(s) <==> Newlines(s) == 0
  {
    if s == "" {
    } else {
      OneLineHasNone(s[1..]);
      assert s == [s[0]] + s[1..];
    }
  }

  predicate SingleLines<V>(s: Snapshot<V>) {
    OneLine(s.name) && forall i :: 0 <= i < |s.labels| ==> OneLine(s.labels[i].0) && OneLine(s.labels[i].1)
  }

  lemma {:induction false} PairsOneLine(labels: seq<(string, string)>)
    requires forall i :: 0 <= i < |labels| ==> OneLine(labels[i].0) && OneLine(labels[i].1)
    ensures OneLine(Pairs(labels))
  {
    if labels == [] {
    } else {
      assert OneLine(Pair(labels[0]));
      PairsOneLine(labels[1..]);
    }
  }

  // Exactly a type line and a sample line for every snapshot.
  lemma {:induction false} TwoLinesEach<V(!new)>(show: Show<V>, snaps: seq<Snapshot<V>>)
    requires OneLineValues(show) && forall i :: 0 <= i < |snaps| ==> SingleLines(snaps[i])
    ensures Newlines(Rendered(show, snaps)) == 2 * |snaps|
  {
    if snaps == [] {
    } else {
      RecordHasTwoLines(show, snaps[0]);
      NewlinesConcat(Record(show, snaps[0]), Rendered(show, snaps[1..]));
      TwoLinesEach(show, snaps[1..]);
    }
  }

  lemma {:induction false} LineHasOne(s: string)
    requires OneLine(s)
    ensures Newlines(s + ['\n']) == 1
  {
    OneLineHasNone(s);
    NewlinesConcat(s, ['\n']);
    assert ['\n'][1..] == "";
  }

  lemma {:induction false} RecordHasTwoLines<V(!new)>(show: Show<V>, s: Snapshot<V>)
    requires OneLineValues(show) && SingleLines(s)
    ensures Newlines(Record(show, s)) == 2
  {
    PairsOneLine(s.labels);
    LineHasOne(TYPE_PREFIX + s.name + [' '] + TypeName(s.kind));
    LineHasOne(s.name + Braces(s.labels) + [' '] + show(s.value));
    NewlinesConcat(TypeLine(s), SampleLine(show, s));
  }
}
