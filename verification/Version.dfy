/** Version compatibility of a backup with its target controller (internal/backup/backup.go),
    and the precedence of section 11 of Semantic Versioning 2.0.0. */
module Version {

  import opened Common

  const MAX_INT: int := 0x7FFF_FFFF_FFFF_FFFF

  // ----- Strings -----

  predicate IsDigit(c: char) {
    '0' <= c <= '9'
  }

  function TrimPrefix(s: string): string {
    if s != "" && s[0] == 'v' then s[1..] else s
  }

  function TrimSpace(s: string): string {
    if s == "" then s
    else if IsSpace(s[0]) then TrimSpace(s[1..])
    else if IsSpace(s[|s| - 1]) then TrimSpace(s[..|s| - 1])
    else s
  }

  predicate Contains(s: string, part: string) {
    part <= s || (s != "" && Contains(s[1..], part))
  }

  /** Everything before the first `sep`, and everything after it if there is one. */
  function Cut(s: string, sep: char): (string, Option<string>) {
    if s == "" then ("", None)
    else if s[0] == sep then ("", Some(s[1..]))
    else var (head, tail) := Cut(s[1..], sep); ([s[0]] + head, tail)
  }

  function Split(s: string, sep: char): (parts: seq<string>)
    ensures |parts| >= 1
  {
    if s == "" then [""]
    else
      var rest := Split(s[1..], sep);
      if s[0] == sep then [""] + rest else [[s[0]] + rest[0]] + rest[1..]
  }

  function Digit(c: char): (d: nat)
    requires IsDigit(c)
    ensures d < 10
  {
    c as int - 48
  }

  predicate AllDigits(s: string) {
    s != "" && forall i :: 0 <= i < |s| ==> IsDigit(s[i])
  }

  function DigitsValue(s: string): nat
    requires forall i :: 0 <= i < |s| ==> IsDigit(s[i])
  {
    if s == "" then 0 else 10 * DigitsValue(s[..|s| - 1]) + Digit(s[|s| - 1])
  }

  /** Decimal integer of machine size with an optional sign. */
  function Atoi(s: string): Option<int> {
    var signed := s != "" && (s[0] == '+' || s[0] == '-');
    var digits := if signed then s[1..] else s;
    if !AllDigits(digits) then None
    else
      var n: int := DigitsValue(digits);
      if s[0] == '-' then (if n <= MAX_INT + 1 then Some(-n) else None)
      else if n <= MAX_INT then Some(n) else None
  }

  /** Bytewise lexicographic order. */
  predicate TextLess(a: string, b: string) {
    b != "" && (a == "" || a[0] < b[0] || (a[0] == b[0] && TextLess(a[1..], b[1..])))
  }

  // ----- comparePrerelease -----

  function CompareIdentifier(a: string, b: string): int {
    match (Atoi(a), Atoi(b))
    case (Some(m), Some(n)) => if m < n then -1 else 1
    case (Some(_), None) => -1
    case (None, Some(_)) => 1
    case (None, None) => if TextLess(a, b) then -1 else 1
  }

  function Compare(l: seq<string>, r: seq<string>): int {
    if l == [] || r == [] then (if |l| < |r| then -1 else if |l| > |r| then 1 else 0)
    else if l[0] == r[0] then Compare(l[1..], r[1..])
    else CompareIdentifier(l[0], r[0])
  }

  method CompareDifferent(a: string, b: string) returns (order: int)
    ensures order == CompareIdentifier(a, b)
  {
    var m, n := Atoi(a), Atoi(b);
    if m.Some? && n.Some? {
      return if m.value < n.value then -1 else 1;
    } else if m.Some? {
      return -1;
    } else if n.Some? {
      return 1;
    } else if TextLess(a, b) {
      return -1;
    } else {
      return 1;
    }
  }

  method ComparePrerelease(left: string, right: string) returns (order: int)
    ensures order == Compare(Split(left, '.'), Split(right, '.'))
  {
    var l, r := Split(left, '.'), Split(right, '.');
    var i := 0;
    while i < |l| && i < |r|
      invariant i <= |l| && i <= |r|
      invariant Compare(l, r) == Compare(l[i..], r[i..])
    {
      assert l[i..][1..] == l[i + 1..] && r[i..][1..] == r[i + 1..];
      if l[i] != r[i] {
        order := CompareDifferent(l[i], r[i]);
        return;
      }
      i := i + 1;
    }
    return if |l| < |r| then -1 else if |l| > |r| then 1 else 0;
  }

  // ----- compatibleVersion -----

  datatype Parsed = Parsed(core: seq<int>, prerelease: string)

  function ParseCore(parts: seq<string>): (r: Option<seq<int>>)
    ensures r.Some? ==> |r.value| == |parts|
  {
    if parts == [] then Some([])
    else
      match (ParseCore(parts[..|parts| - 1]), Atoi(parts[|parts| - 1]))
      case (Some(front), Some(v)) => if v < 0 then None else Some(front + [v])
      case _ => None
  }

  function Parse(value: string): (r: Option<Parsed>)
    ensures r.Some? ==> |r.value.core| == 3
  {
    var version := Cut(Cut(value, '+').0, '-');
    var parts := Split(version.0, '.');
    if |parts| != 3 then None
    else
      match ParseCore(parts)
      case None => None
      case Some(core) => Some(Parsed(core, if version.1.Some? then version.1.value else ""))
  }

  function Normalize(s: string): string {
    TrimSpace(TrimPrefix(s))
  }

  /** First difference of two cores: negative when the target is lower. */
  function CompareCore(target: seq<int>, source: seq<int>): int
    requires |target| == |source|
  {
    if target == [] then 0
    else if target[0] != source[0] then target[0] - source[0]
    else CompareCore(target[1..], source[1..])
  }

  predicate CompatibleParsed(s: Parsed, t: Parsed)
    requires |s.core| == |t.core|
  {
    var core := CompareCore(t.core, s.core);
    if core != 0 then core > 0
    else if s.prerelease == t.prerelease then true
    else if s.prerelease == "" then false
    else if t.prerelease == "" then true
    else Compare(Split(t.prerelease, '.'), Split(s.prerelease, '.')) >= 0
  }

  predicate Compatible(source: string, target: string) {
    var s, t := Normalize(source), Normalize(target);
    if s == t || Contains(t, "dev") then true
    else if Contains(s, "dev") then false
    else match (Parse(s), Parse(t))
      case (Some(sv), Some(tv)) => CompatibleParsed(sv, tv)
      case _ => false
  }

  method ParseVersion(value: string) returns (r: Option<Parsed>)
    ensures r == Parse(value)
  {
    var version := Cut(Cut(value, '+').0, '-');
    var parts := Split(version.0, '.');
    if |parts| != 3 {
      return None;
    }
    var core: seq<int> := [];
    for i := 0 to |parts|
      invariant ParseCore(parts[..i]) == Some(core)
    {
      assert parts[..i + 1][..i] == parts[..i];
      var v := Atoi(parts[i]);
      if v.None? || v.value < 0 {
        NoCore(parts, i + 1);
        return None;
      }
      core := core + [v.value];
    }
    assert parts[..|parts|] == parts;
    return Some(Parsed(core, if version.1.Some? then version.1.value else ""));
  }

  lemma {:induction false} NoCore(parts: seq<string>, i: nat)
    requires i <= |parts| && ParseCore(parts[..i]).None?
    ensures ParseCore(parts).None?
    decreases |parts| - i
  {
    if i == |parts| {
      assert parts[..i] == parts;
    } else {
      assert parts[..i + 1][..i] == parts[..i];
      NoCore(parts, i + 1);
    }
  }

  method CompatibleVersion(source: string, target: string) returns (ok: bool)
    ensures ok == Compatible(source, target)
  {
    var s, t := Normalize(source), Normalize(target);
    if s == t || Contains(t, "dev") {
      return true;
    }
    if Contains(s, "dev") {
      return false;
    }
    var sp := ParseVersion(s);
    var tp := ParseVersion(t);
    if sp.None? || tp.None? {
      return false;
    }
    var sv, tv := sp.value, tp.value;
    var i := 0;
    while i < 3
      invariant i <= 3 && CompareCore(tv.core, sv.core) == CompareCore(tv.core[i..], sv.core[i..])
    {
      if tv.core[i] != sv.core[i] {
        return tv.core[i] > sv.core[i];
      }
      i := i + 1;
    }
    if sv.prerelease == tv.prerelease {
      return true;
    }
    if sv.prerelease == "" {
      return false;
    }
    if tv.prerelease == "" {
      return true;
    }
    var order := ComparePrerelease(tv.prerelease, sv.prerelease);
    return order >= 0;
  }

  // ----- Precedence of Semantic Versioning -----

  /** Identifiers of digits are numbers; all others are text. */
  datatype Identifier = Number(value: nat) | Text(text: string)

  predicate IdentifierLess(a: Identifier, b: Identifier) {
    match (a, b)
    case (Number(m), Number(n)) => m < n
    case (Number(_), Text(_)) => true
    case (Text(_), Number(_)) => false
    case (Text(s), Text(t)) => TextLess(s, t)
  }

  /** Field by field; a larger set of fields wins when all preceding ones are equal. */
  predicate FieldsAtMost(a: seq<Identifier>, b: seq<Identifier>) {
    a == [] || (b != [] && (IdentifierLess(a[0], b[0]) || (a[0] == b[0] && FieldsAtMost(a[1..], b[1..]))))
  }

  /** A version without a pre-release is written with no fields. */
  datatype SemVer = SemVer(core: seq<int>, fields: seq<Identifier>)

  predicate PrecedenceAtMost(a: SemVer, b: SemVer)
    requires |a.core| == |b.core|
  {
    var core := CompareCore(b.core, a.core);
    core > 0 || (core == 0 && (b.fields == [] || (a.fields != [] && FieldsAtMost(a.fields, b.fields))))
  }

  /** Numbers without leading zeros that fit the machine, or text that does not read as a number. */
  predicate Plain(s: string) {
    if AllDigits(s) then (s == "0" || s[0] != '0') && DigitsValue(s) <= MAX_INT else Atoi(s).None?
  }

  function ToIdentifier(s: string): Identifier {
    if AllDigits(s) then Number(DigitsValue(s)) else Text(s)
  }

  function ToFields(parts: seq<string>): seq<Identifier> {
    if parts == [] then [] else [ToIdentifier(parts[0])] + ToFields(parts[1..])
  }

  predicate AllPlain(parts: seq<string>) {
    forall i :: 0 <= i < |parts| ==> Plain(parts[i])
  }

  function ToSemVer(v: Parsed): SemVer {
    SemVer(v.core, if v.prerelease == "" then [] else ToFields(Split(v.prerelease, '.')))
  }

  // ----- Text order -----

  lemma {:induction false} TextTotal(a: string, b: string)
    ensures TextLess(a, b) || a == b || TextLess(b, a)
    ensures !(TextLess(a, b) && TextLess(b, a))
  {
    if a != "" && b != "" {
      TextTotal(a[1..], b[1..]);
      assert a == [a[0]] + a[1..] && b == [b[0]] + b[1..];
    }
  }

  lemma {:induction false} TextTransitive(a: string, b: string, c: string)
    requires TextLess(a, b) && TextLess(b, c)
    ensures TextLess(a, c)
  {
    if a != "" && b != "" && c != "" && a[0] == b[0] == c[0] {
      TextTransitive(a[1..], b[1..], c[1..]);
    }
  }

  // ----- Canonical numbers -----

  lemma {:induction false} LeadingDigit(s: string)
    requires AllDigits(s) && s[0] != '0'
    ensures DigitsValue(s) >= 1 && (|s| > 1 ==> DigitsValue(s) >= 10)
  {
    if |s| > 1 {
      LeadingDigit(s[..|s| - 1]);
    } else {
      assert s[..0] == "";
    }
  }

  lemma {:induction false} DigitsInjective(a: string, b: string)
    requires AllDigits(a) && AllDigits(b) && DigitsValue(a) == DigitsValue(b)
    requires (a == "0" || a[0] != '0') && (b == "0" || b[0] != '0')
    ensures a == b
  {
    var x, y := a[|a| - 1], b[|b| - 1];
    var p, q := a[..|a| - 1], b[..|b| - 1];
    assert a == p + [x] && b == q + [y];
    if |a| > 1 {
      LeadingDigit(a);
    } else {
      assert p == "" && DigitsValue(a) < 10;
    }
    if |b| > 1 {
      LeadingDigit(b);
    } else {
      assert q == "" && DigitsValue(b) < 10;
    }
    assert DigitsValue(p) == DigitsValue(q) && Digit(x) == Digit(y);
    if |a| > 1 && |b| > 1 {
      DigitsInjective(p, q);
    }
  }

  lemma AtoiOfPlain(s: string)
    requires Plain(s)
    ensures AllDigits(s) ==> Atoi(s) == Some(DigitsValue(s))
    ensures !AllDigits(s) ==> Atoi(s) == None
  {
    if AllDigits(s) {
      assert IsDigit(s[0]);
    }
  }

  lemma IdentifierInjective(a: string, b: string)
    requires Plain(a) && Plain(b) && ToIdentifier(a) == ToIdentifier(b)
    ensures a == b
  {
    if AllDigits(a) && AllDigits(b) {
      assert IsDigit(a[0]) && IsDigit(b[0]);
      DigitsInjective(a, b);
    }
  }

  lemma CompareIdentifierIsLess(a: string, b: string)
    requires Plain(a) && Plain(b) && a != b
    ensures CompareIdentifier(a, b) == if IdentifierLess(ToIdentifier(a), ToIdentifier(b)) then -1 else 1
  {
    AtoiOfPlain(a);
    AtoiOfPlain(b);
  }

  /** On plain identifiers the comparison is the precedence, in both directions. */
  lemma {:induction false} CompareIsPrecedence(l: seq<string>, r: seq<string>)
    requires AllPlain(l) && AllPlain(r)
    ensures Compare(l, r) <= 0 <==> FieldsAtMost(ToFields(l), ToFields(r))
    ensures Compare(l, r) >= 0 <==> FieldsAtMost(ToFields(r), ToFields(l))
    ensures Compare(l, r) == 0 <==> l == r
  {
    if l != [] && r != [] {
      if l[0] == r[0] {
        CompareIsPrecedence(l[1..], r[1..]);
        assert l == [l[0]] + l[1..] && r == [r[0]] + r[1..];
        IdentifierTotal(ToIdentifier(l[0]), ToIdentifier(r[0]));
      } else {
        CompareIdentifierIsLess(l[0], r[0]);
        IdentifierTotal(ToIdentifier(l[0]), ToIdentifier(r[0]));
        if ToIdentifier(l[0]) == ToIdentifier(r[0]) {
          IdentifierInjective(l[0], r[0]);
        }
      }
    }
  }

  lemma IdentifierTotal(a: Identifier, b: Identifier)
    ensures IdentifierLess(a, b) || a == b || IdentifierLess(b, a)
    ensures !(IdentifierLess(a, b) && IdentifierLess(b, a)) && !IdentifierLess(a, a)
  {
    if a.Text? && b.Text? {
      TextTotal(a.text, b.text);
    }
    if a.Text? {
      TextTotal(a.text, a.text);
    }
  }

  lemma IdentifierTransitive(a: Identifier, b: Identifier, c: Identifier)
    requires IdentifierLess(a, b) && IdentifierLess(b, c)
    ensures IdentifierLess(a, c)
  {
    if a.Text? && b.Text? && c.Text? {
      TextTransitive(a.text, b.text, c.text);
    }
  }

  lemma {:induction false} FieldsTransitive(a: seq<Identifier>, b: seq<Identifier>, c: seq<Identifier>)
    requires FieldsAtMost(a, b) && FieldsAtMost(b, c)
    ensures FieldsAtMost(a, c)
  {
    if a != [] {
      if IdentifierLess(a[0], b[0]) && IdentifierLess(b[0], c[0]) {
        IdentifierTransitive(a[0], b[0], c[0]);
      } else if a[0] == b[0] == c[0] && FieldsAtMost(a[1..], b[1..]) && FieldsAtMost(b[1..], c[1..]) {
        FieldsTransitive(a[1..], b[1..], c[1..]);
      }
    }
  }

  /** A total order on lists of plain identifiers. */
  lemma CompareIsTotalOrder(l: seq<string>, r: seq<string>, u: seq<string>)
    requires AllPlain(l) && AllPlain(r) && AllPlain(u)
    ensures (Compare(l, r) < 0 <==> Compare(r, l) > 0) && (Compare(l, r) == 0 <==> l == r)
    ensures Compare(l, r) <= 0 && Compare(r, u) <= 0 ==> Compare(l, u) <= 0
  {
    CompareIsPrecedence(l, r);
    CompareIsPrecedence(r, l);
    CompareIsPrecedence(r, u);
    CompareIsPrecedence(l, u);
    if Compare(l, r) <= 0 && Compare(r, u) <= 0 {
      FieldsTransitive(ToFields(l), ToFields(r), ToFields(u));
    }
  }

  // ----- Exactly the plain identifiers -----

  /** The code orders these two identifiers as Semantic Versioning does. */
  predicate Agrees(s: string, t: string) {
    && (Compare([s], [t]) <= 0 <==> FieldsAtMost([ToIdentifier(s)], [ToIdentifier(t)]))
    && (Compare([s], [t]) >= 0 <==> FieldsAtMost([ToIdentifier(t)], [ToIdentifier(s)]))
  }

  lemma PlainAgrees(s: string, t: string)
    requires Plain(s) && Plain(t)
    ensures Agrees(s, t)
  {
    CompareIsPrecedence([s], [t]);
    assert ToFields([s]) == [ToIdentifier(s)] && ToFields([t]) == [ToIdentifier(t)];
  }

  lemma SingleFields(s: string, t: string)
    ensures Compare([s], [t]) == if s == t then 0 else CompareIdentifier(s, t)
    ensures FieldsAtMost([ToIdentifier(s)], [ToIdentifier(t)]) <==>
            IdentifierLess(ToIdentifier(s), ToIdentifier(t)) || ToIdentifier(s) == ToIdentifier(t)
  {
  }

  lemma {:induction false} DropZero(s: string)
    requires AllDigits(s) && |s| > 1 && s[0] == '0'
    ensures AllDigits(s[1..]) && DigitsValue(s[1..]) == DigitsValue(s)
  {
    var n := |s| - 1;
    if n > 1 {
      DropZero(s[..n]);
      assert s[..n][1..] == s[1..][..n - 1];
    } else {
      assert s[..1] == "0" && s[1..][..0] == "" && "0"[..0] == "";
    }
  }

  /** The same number written without leading zeros. */
  lemma {:induction false} Canonical(s: string) returns (t: string)
    requires AllDigits(s)
    ensures AllDigits(t) && (t == "0" || t[0] != '0') && DigitsValue(t) == DigitsValue(s)
  {
    if |s| > 1 && s[0] == '0' {
      DropZero(s);
      t := Canonical(s[1..]);
    } else {
      t := s;
      assert s[0] == '0' ==> s == "0";
    }
  }

  /** Digits too large for the machine are compared as text, and so above the text "-". */
  lemma LargeNumberMisordered(s: string)
    requires AllDigits(s) && DigitsValue(s) > MAX_INT
    ensures Plain("-") && !Agrees(s, "-")
  {
    assert "-"[1..] == "";
    assert IsDigit(s[0]);
    SingleFields(s, "-");
  }

  /** Leading zeros make two spellings of one number, each above the other. */
  lemma LeadingZeroMisordered(s: string) returns (t: string)
    requires AllDigits(s) && s != "0" && s[0] == '0' && DigitsValue(s) <= MAX_INT
    ensures Plain(t) && !Agrees(s, t)
  {
    t := Canonical(s);
    assert IsDigit(s[0]) && IsDigit(t[0]);
    SingleFields(s, t);
  }

  /** A signed number is text to Semantic Versioning but sorts below the empty text. */
  lemma SignedMisordered(s: string)
    requires !AllDigits(s) && Atoi(s).Some?
    ensures Plain("") && !Agrees(s, "")
  {
    SingleFields(s, "");
  }

  /** An identifier is ordered as Semantic Versioning orders it against every plain one iff it is
      plain itself. */
  lemma PlainIsExact(s: string)
    ensures Plain(s) <==> forall t :: Plain(t) ==> Agrees(s, t)
  {
    if Plain(s) {
      forall t | Plain(t)
        ensures Agrees(s, t)
      {
        PlainAgrees(s, t);
      }
    } else if !AllDigits(s) {
      SignedMisordered(s);
    } else if DigitsValue(s) > MAX_INT {
      LargeNumberMisordered(s);
    } else {
      var t := LeadingZeroMisordered(s);
    }
  }

  /** Outside that domain the comparison contradicts itself: "01" and "1" each exceed the other. */
  lemma LeadingZeroContradicts()
    ensures Compare(["01"], ["1"]) == 1 && Compare(["1"], ["01"]) == 1
  {
    assert "01"[..1] == "0" && "0"[..0] == "" && "1"[..0] == "";
    assert DigitsValue("0") == 0 && DigitsValue("01") == 1 && DigitsValue("1") == 1;
  }

  /** The first fields in which two lists differ are numbers of equal value. */
  predicate EqualNumberClash(l: seq<string>, r: seq<string>) {
    && l != [] && r != []
    && if l[0] == r[0] then EqualNumberClash(l[1..], r[1..])
       else Atoi(l[0]).Some? && Atoi(l[0]) == Atoi(r[0])
  }

  /** On any strings, swapping the arguments negates the result except in exactly that case. */
  lemma {:induction false} AntisymmetricUnlessClash(l: seq<string>, r: seq<string>)
    ensures Compare(l, r) == -Compare(r, l) <==> !EqualNumberClash(l, r)
  {
    if l != [] && r != [] {
      if l[0] == r[0] {
        AntisymmetricUnlessClash(l[1..], r[1..]);
      } else {
        TextTotal(l[0], r[0]);
      }
    }
  }

  // ----- Compatibility is precedence -----

  predicate IsPlainVersion(s: string) {
    && !Contains(Normalize(s), "dev") && Parse(Normalize(s)).Some?
    && var pre := Parse(Normalize(s)).value.prerelease;
       pre == "" || AllPlain(Split(pre, '.'))
  }

  function VersionOf(s: string): (v: SemVer)
    requires IsPlainVersion(s)
    ensures |v.core| == 3
  {
    ToSemVer(Parse(Normalize(s)).value)
  }

  lemma {:induction false} EqualCores(a: seq<int>, b: seq<int>)
    requires |a| == |b|
    ensures CompareCore(a, b) == 0 <==> a == b
    ensures CompareCore(a, b) == -CompareCore(b, a)
  {
    if a != [] {
      EqualCores(a[1..], b[1..]);
      assert a == [a[0]] + a[1..] && b == [b[0]] + b[1..];
    }
  }

  /** For parsed versions outside development builds with plain pre-release identifiers, a backup is
      compatible exactly when its target has at least the precedence of its source. */
  lemma CompatibleIsPrecedence(source: string, target: string)
    requires IsPlainVersion(source) && IsPlainVersion(target)
    ensures Compatible(source, target) <==> PrecedenceAtMost(VersionOf(source), VersionOf(target))
  {
    var s, t := Parse(Normalize(source)).value, Parse(Normalize(target)).value;
    EqualCores(t.core, s.core);
    if s.prerelease != "" && t.prerelease != "" {
      CompareIsPrecedence(Split(t.prerelease, '.'), Split(s.prerelease, '.'));
    }
  }

  lemma {:induction false} CoreTransitive(a: seq<int>, b: seq<int>, c: seq<int>)
    requires |a| == |b| == |c| && CompareCore(b, a) >= 0 && CompareCore(c, b) >= 0
    ensures CompareCore(c, a) >= 0
    ensures CompareCore(c, a) == 0 ==> CompareCore(b, a) == 0 && CompareCore(c, b) == 0
  {
    if a != [] && a[0] == b[0] == c[0] {
      CoreTransitive(a[1..], b[1..], c[1..]);
    }
  }

  lemma {:induction false} FieldsTotal(a: seq<Identifier>, b: seq<Identifier>)
    ensures FieldsAtMost(a, b) || FieldsAtMost(b, a)
  {
    if a != [] && b != [] {
      IdentifierTotal(a[0], b[0]);
      FieldsTotal(a[1..], b[1..]);
    }
  }

  lemma PrecedenceTransitive(a: SemVer, b: SemVer, c: SemVer)
    requires |a.core| == |b.core| == |c.core| && PrecedenceAtMost(a, b) && PrecedenceAtMost(b, c)
    ensures PrecedenceAtMost(a, c)
  {
    CoreTransitive(a.core, b.core, c.core);
    if b.fields != [] && c.fields != [] && FieldsAtMost(a.fields, b.fields) && FieldsAtMost(b.fields, c.fields) {
      FieldsTransitive(a.fields, b.fields, c.fields);
    }
  }

  /** Restores compose and any two such versions are comparable. */
  lemma CompatibleIsPreorder(a: string, b: string, c: string)
    requires IsPlainVersion(a) && IsPlainVersion(b) && IsPlainVersion(c)
    ensures Compatible(a, b) || Compatible(b, a)
    ensures Compatible(a, b) && Compatible(b, c) ==> Compatible(a, c)
  {
    CompatibleIsPrecedence(a, b);
    CompatibleIsPrecedence(b, a);
    CompatibleIsPrecedence(b, c);
    CompatibleIsPrecedence(a, c);
    var u, v, w := VersionOf(a), VersionOf(b), VersionOf(c);
    EqualCores(u.core, v.core);
    FieldsTotal(u.fields, v.fields);
    if PrecedenceAtMost(u, v) && PrecedenceAtMost(v, w) {
      PrecedenceTransitive(u, v, w);
    }
  }

  // ----- What a version string reads as -----

  /** A number as it is written. */
  function Decimal(n: nat): string {
    if n < 10 then [(48 + n) as char] else Decimal(n / 10) + [(48 + n % 10) as char]
  }

  lemma {:induction false} DecimalValue(n: nat)
    ensures AllDigits(Decimal(n)) && DigitsValue(Decimal(n)) == n
  {
    var s := Decimal(n);
    if n < 10 {
      assert s[..0] == "";
    } else {
      DecimalValue(n / 10);
      assert s[..|s| - 1] == Decimal(n / 10) && s[|s| - 1] == (48 + n % 10) as char;
    }
  }

  /** Every digit string with or without a sign, within 64 bits. */
  lemma AtoiMeans(digits: string)
    requires AllDigits(digits)
    ensures Atoi(digits) == Atoi("+" + digits)
    ensures Atoi(digits) == if DigitsValue(digits) <= 9223372036854775807 then Some(DigitsValue(digits)) else None
    ensures Atoi("-" + digits) == if DigitsValue(digits) <= 9223372036854775808 then Some(0 - DigitsValue(digits) as int) else None
  {
    assert ("+" + digits)[1..] == digits && ("-" + digits)[1..] == digits;
    assert IsDigit(digits[0]);
  }

  predicate AllSpace(s: string) {
    forall i :: 0 <= i < |s| ==> IsSpace(s[i])
  }

  ghost predicate TrimsTo(s: string, a: string, t: string, b: string) {
    && s == a + t + b && AllSpace(a) && AllSpace(b)
    && (t != "" ==> !IsSpace(t[0]) && !IsSpace(t[|t| - 1]))
  }

  lemma TrimsLeft(s: string, a: string, t: string, b: string)
    requires s != "" && IsSpace(s[0]) && TrimsTo(s[1..], a, t, b)
    ensures TrimsTo(s, [s[0]] + a, t, b)
  {
    assert s == [s[0]] + s[1..];
    assert [s[0]] + (a + t + b) == [s[0]] + a + t + b;
  }

  lemma TrimsRight(s: string, a: string, t: string, b: string)
    requires s != "" && IsSpace(s[|s| - 1]) && TrimsTo(s[..|s| - 1], a, t, b)
    ensures TrimsTo(s, a, t, b + [s[|s| - 1]])
  {
    assert s == s[..|s| - 1] + [s[|s| - 1]];
    assert a + t + b + [s[|s| - 1]] == a + t + (b + [s[|s| - 1]]);
  }

  /** Trimming takes white space off both ends, all of it, and nothing else. */
  lemma {:induction false} TrimMeans(s: string) returns (a: string, b: string)
    ensures TrimsTo(s, a, TrimSpace(s), b)
  {
    if s == "" {
      a, b := "", "";
    } else if IsSpace(s[0]) {
      a, b := TrimMeans(s[1..]);
      TrimsLeft(s, a, TrimSpace(s[1..]), b);
      a := [s[0]] + a;
    } else if IsSpace(s[|s| - 1]) {
      a, b := TrimMeans(s[..|s| - 1]);
      TrimsRight(s, a, TrimSpace(s[..|s| - 1]), b);
      b := b + [s[|s| - 1]];
    } else {
      a, b := "", "";
    }
  }

  lemma AtoiDecimal(n: nat)
    requires n <= MAX_INT
    ensures Atoi(Decimal(n)) == Some(n)
  {
    DecimalValue(n);
    assert IsDigit(Decimal(n)[0]);
  }

  predicate Free(s: string, c: char) {
    forall i :: 0 <= i < |s| ==> s[i] != c
  }

  lemma {:induction false} CutFree(s: string, sep: char)
    requires Free(s, sep)
    ensures Cut(s, sep) == (s, None)
  {
    if s != "" {
      CutFree(s[1..], sep);
      assert s == [s[0]] + s[1..];
    }
  }

  lemma {:induction false} CutAt(a: string, sep: char, b: string)
    requires Free(a, sep)
    ensures Cut(a + [sep] + b, sep) == (a, Some(b))
  {
    var s := a + [sep] + b;
    if a == "" {
      assert s[0] == sep && s[1..] == b;
    } else {
      CutAt(a[1..], sep, b);
      assert s[0] == a[0] && s[1..] == a[1..] + [sep] + b && a == [a[0]] + a[1..];
    }
  }

  lemma {:induction false} SplitFree(s: string, sep: char)
    requires Free(s, sep)
    ensures Split(s, sep) == [s]
  {
    if s != "" {
      SplitFree(s[1..], sep);
      assert s == [s[0]] + s[1..];
    }
  }

  lemma {:induction false} SplitAt(a: string, sep: char, b: string)
    requires Free(a, sep)
    ensures Split(a + [sep] + b, sep) == [a] + Split(b, sep)
  {
    var s := a + [sep] + b;
    if a == "" {
      assert s[0] == sep && s[1..] == b;
    } else {
      SplitAt(a[1..], sep, b);
      assert s[0] == a[0] && s[1..] == a[1..] + [sep] + b && a == [a[0]] + a[1..];
    }
  }

  function Joined(parts: seq<string>, sep: char): string {
    if parts == [] then "" else if |parts| == 1 then parts[0] else parts[0] + [sep] + Joined(parts[1..], sep)
  }

  /** Splitting loses nothing: the parts hold no separator and join to the text again. */
  lemma {:induction false} SplitMeans(s: string, sep: char)
    ensures Joined(Split(s, sep), sep) == s
    ensures forall i :: 0 <= i < |Split(s, sep)| ==> Free(Split(s, sep)[i], sep)
  {
    if s != "" {
      SplitMeans(s[1..], sep);
      var rest, parts := Split(s[1..], sep), Split(s, sep);
      assert s == [s[0]] + s[1..];
      if s[0] == sep {
        assert parts[1..] == rest;
      } else {
        assert parts[1..] == rest[1..];
        assert Free(rest[0], sep);
      }
    }
  }

  /** Text is compared at the first place where it differs; a proper prefix comes first. */
  predicate DiffersAt(a: string, b: string, k: nat) {
    k <= |a| && k < |b| && a[..k] == b[..k] && (k == |a| || a[k] < b[k])
  }

  lemma SharedHead(a: string, b: string, k: nat)
    requires DiffersAt(a, b, k)
    ensures k > 0 ==> a[0] == b[0]
  {
    if k > 0 {
      assert a[..k][0] == b[..k][0];
    }
  }

  lemma {:induction false} TextLessMeans(a: string, b: string)
    ensures TextLess(a, b) <==> exists k: nat :: DiffersAt(a, b, k)
  {
    forall k: nat | DiffersAt(a, b, k)
      ensures b != "" && (k > 0 ==> a != "" && a[0] == b[0])
    {
      SharedHead(a, b, k);
    }
    if a == "" || b == "" || a[0] != b[0] {
      if TextLess(a, b) {
        assert DiffersAt(a, b, 0);
      }
    } else {
      TextLessMeans(a[1..], b[1..]);
      if k: nat :| DiffersAt(a[1..], b[1..], k) {
        assert a[..k + 1] == [a[0]] + a[1..][..k] && b[..k + 1] == [b[0]] + b[1..][..k];
        assert DiffersAt(a, b, k + 1);
      }
      if k: nat :| DiffersAt(a, b, k) {
        assert a[1..][..k - 1] == a[..k][1..] && b[1..][..k - 1] == b[..k][1..];
        assert DiffersAt(a[1..], b[1..], k - 1);
      }
    }
  }

  function Core(a: nat, b: nat, c: nat): string {
    Decimal(a) + "." + (Decimal(b) + "." + Decimal(c))
  }

  lemma CoreSplits(a: nat, b: nat, c: nat)
    ensures Split(Core(a, b, c), '.') == [Decimal(a), Decimal(b), Decimal(c)]
  {
    DecimalValue(a);
    DecimalValue(b);
    DecimalValue(c);
    SplitAt(Decimal(a), '.', Decimal(b) + "." + Decimal(c));
    SplitAt(Decimal(b), '.', Decimal(c));
    SplitFree(Decimal(c), '.');
  }

  lemma ParseSnoc(parts: seq<string>, x: string, front: seq<int>, v: nat)
    requires ParseCore(parts) == Some(front) && Atoi(x) == Some(v)
    ensures ParseCore(parts + [x]) == Some(front + [v])
  {
    assert (parts + [x])[..|parts|] == parts;
  }

  lemma ThreeParts(x: string, y: string, z: string, a: nat, b: nat, c: nat)
    requires Atoi(x) == Some(a) && Atoi(y) == Some(b) && Atoi(z) == Some(c)
    ensures ParseCore([x, y, z]) == Some([a, b, c])
  {
    ParseSnoc([], x, [], a);
    assert [] + [x] == [x] && [] + [a as int] == [a];
    ParseSnoc([x], y, [a], b);
    assert [x] + [y] == [x, y] && [a as int] + [b] == [a, b];
    ParseSnoc([x, y], z, [a, b], c);
    assert [x, y] + [z] == [x, y, z] && [a as int, b] + [c] == [a, b, c];
  }

  lemma CoreParses(a: nat, b: nat, c: nat)
    requires a <= MAX_INT && b <= MAX_INT && c <= MAX_INT
    ensures ParseCore([Decimal(a), Decimal(b), Decimal(c)]) == Some([a, b, c])
  {
    AtoiDecimal(a);
    AtoiDecimal(b);
    AtoiDecimal(c);
    ThreeParts(Decimal(a), Decimal(b), Decimal(c), a, b, c);
  }

  lemma CoreFree(a: nat, b: nat, c: nat)
    ensures Core(a, b, c) != "" && IsDigit(Core(a, b, c)[0]) && IsDigit(Core(a, b, c)[|Core(a, b, c)| - 1])
    ensures forall i :: 0 <= i < |Core(a, b, c)| ==> IsDigit(Core(a, b, c)[i]) || Core(a, b, c)[i] == '.'
  {
    DecimalValue(a);
    DecimalValue(b);
    DecimalValue(c);
  }

  /** A version as Semantic Versioning writes it. */
  function Written(a: nat, b: nat, c: nat, pre: Option<string>, build: Option<string>): string {
    Core(a, b, c) + (if pre.Some? then "-" + pre.value else "") + (if build.Some? then "+" + build.value else "")
  }

  lemma WrittenCore(a: nat, b: nat, c: nat, pre: Option<string>)
    requires pre.Some? ==> Free(pre.value, '+')
    ensures var text := Written(a, b, c, pre, None);
            Free(text, '+') && Cut(text, '-') == (Core(a, b, c), pre)
  {
    CoreFree(a, b, c);
    var text := Written(a, b, c, pre, None);
    if pre.Some? {
      CutAt(Core(a, b, c), '-', pre.value);
      assert text == Core(a, b, c) + ['-'] + pre.value;
    } else {
      CutFree(Core(a, b, c), '-');
      assert text == Core(a, b, c);
    }
  }

  /** Any such version is read as its three numbers, major first, and its pre-release; the build is
      dropped. */
  lemma ParseReads(a: nat, b: nat, c: nat, pre: Option<string>, build: Option<string>)
    requires a <= MAX_INT && b <= MAX_INT && c <= MAX_INT && (pre.Some? ==> Free(pre.value, '+'))
    ensures Parse(Written(a, b, c, pre, build)) == Some(Parsed([a, b, c], if pre.Some? then pre.value else ""))
  {
    var plain, text := Written(a, b, c, pre, None), Written(a, b, c, pre, build);
    WrittenCore(a, b, c, pre);
    CoreSplits(a, b, c);
    CoreParses(a, b, c);
    if build.Some? {
      CutAt(plain, '+', build.value);
      assert text == plain + ['+'] + build.value;
    } else {
      CutFree(plain, '+');
      assert text == plain;
    }
  }

  /** Cores are compared at the first number that differs: major, then minor, then patch. */
  lemma CoreOrder(t: seq<int>, s: seq<int>)
    requires |t| == |s| == 3
    ensures CompareCore(t, s) > 0 <==> t[0] > s[0] || (t[0] == s[0] && (t[1] > s[1] || (t[1] == s[1] && t[2] > s[2])))
    ensures CompareCore(t, s) == 0 <==> t[0] == s[0] && t[1] == s[1] && t[2] == s[2]
  {
    assert t[1..][1..] == t[2..] && s[1..][1..] == s[2..];
    assert t[2..][1..] == [] && s[2..][1..] == [];
    assert CompareCore(t[2..], s[2..]) == t[2] - s[2];
    assert CompareCore(t[1..], s[1..]) == if t[1] != s[1] then t[1] - s[1] else t[2] - s[2];
  }

  // ----- End to end -----

  lemma {:induction false} ContainsNeeds(s: string, part: string)
    requires part != "" && Free(s, part[0])
    ensures !Contains(s, part)
  {
    if s != "" {
      ContainsNeeds(s[1..], part);
    }
  }

  lemma {:induction false} ContainsMeans(s: string, part: string)
    ensures Contains(s, part) <==> exists i :: 0 <= i <= |s| && part <= s[i..]
  {
    assert s[0..] == s;
    if s != "" {
      ContainsMeans(s[1..], part);
      if i :| 0 <= i <= |s[1..]| && part <= s[1..][i..] {
        assert s[1..][i..] == s[i + 1..];
      }
      if i :| 0 < i <= |s| && part <= s[i..] {
        assert s[i..] == s[1..][i - 1..];
      }
    }
  }

  lemma BareNormal(t: string)
    requires t != "" && IsDigit(t[0]) && IsDigit(t[|t| - 1])
    ensures Normalize(t) == t && Normalize("v" + t) == t
  {
    assert TrimSpace(t) == t;
    assert ("v" + t)[1..] == t;
  }

  lemma CoreNormal(a: nat, b: nat, c: nat)
    ensures Normalize(Core(a, b, c)) == Core(a, b, c) && Normalize("v" + Core(a, b, c)) == Core(a, b, c)
    ensures !Contains(Core(a, b, c), "dev")
  {
    CoreFree(a, b, c);
    ContainsNeeds(Core(a, b, c), "dev");
    BareNormal(Core(a, b, c));
  }

  /** Release versions, with or without the leading "v", restore exactly onto the same or a later one. */
  lemma ReleasesCompatible(a: nat, b: nat, c: nat, x: nat, y: nat, z: nat)
    requires a <= MAX_INT && b <= MAX_INT && c <= MAX_INT && x <= MAX_INT && y <= MAX_INT && z <= MAX_INT
    ensures Compatible(Core(a, b, c), Core(x, y, z)) <==> x > a || (x == a && (y > b || (y == b && z >= c)))
    ensures Compatible("v" + Core(a, b, c), "v" + Core(x, y, z)) == Compatible(Core(a, b, c), Core(x, y, z))
  {
    CoreNormal(a, b, c);
    CoreNormal(x, y, z);
    ParseReads(a, b, c, None, None);
    ParseReads(x, y, z, None, None);
    assert Written(a, b, c, None, None) == Core(a, b, c) && Written(x, y, z, None, None) == Core(x, y, z);
    CoreOrder([x, y, z], [a, b, c]);
  }

  /** A development target takes anything, a development source goes only onto itself or such a
      target, and every version restores onto itself. */
  lemma DevelopmentVersions(source: string, target: string)
    ensures (exists i :: 0 <= i <= |Normalize(target)| && "dev" <= Normalize(target)[i..]) ==> Compatible(source, target)
    ensures (exists i :: 0 <= i <= |Normalize(source)| && "dev" <= Normalize(source)[i..]) && Compatible(source, target) ==>
              Normalize(source) == Normalize(target) || Contains(Normalize(target), "dev")
    ensures Compatible(source, source)
  {
    ContainsMeans(Normalize(target), "dev");
    ContainsMeans(Normalize(source), "dev");
  }
}
