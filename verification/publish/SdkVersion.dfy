/**
 Versions of published logger SDKs (apps/web/src/lib/logger-sdk-version.ts): derived from the schema
 difference to the last published one, and faithful to section 11 of Semantic Versioning 2.0.0.
 */
module SdkVersion {
  import opened Decimals
  import opened Strings
  import opened Wrappers

  datatype ColumnSig = ColumnSig(name: string, typ: string, classification: string)

  datatype Bump = Major | Minor | Patch

  // ----- equality of schemas -----

  ghost predicate SortedByName(cs: seq<ColumnSig>) {
    forall i, j :: 0 <= i < j < |cs| ==> StringLe(cs[i].name, cs[j].name)
  }

  ghost predicate UniqueNames(cs: seq<ColumnSig>) {
    forall i, j :: 0 <= i < |cs| && 0 <= j < |cs| && i != j ==> cs[i].name != cs[j].name
  }

  lemma SortedJoin(a: seq<ColumnSig>, b: seq<ColumnSig>)
    requires SortedByName(a) && SortedByName(b)
    requires a != [] && b != [] ==> StringLe(a[|a| - 1].name, b[0].name)
    ensures SortedByName(a + b)
  {
    forall i, j | 0 <= i < j < |a + b|
      ensures StringLe((a + b)[i].name, (a + b)[j].name)
    {
      if i < |a| <= j {
        var last, first := a[|a| - 1].name, b[0].name;
        assert i == |a| - 1 || StringLe(a[i].name, last);
        assert j == |a| || StringLe(first, b[j - |a|].name);
        ReflexiveOr(a[i].name, last);
        ReflexiveOr(first, b[j - |a|].name);
        LeTransitive(a[i].name, last, first);
        LeTransitive(a[i].name, first, b[j - |a|].name);
      }
    }
  }

  lemma {:induction false} ReflexiveOr(a: string, b: string)
    ensures a == b ==> StringLe(a, b)
  {
    if a != "" && a == b {
      ReflexiveOr(a[1..], b[1..]);
    }
  }

  lemma SortedParts(a: seq<ColumnSig>, b: seq<ColumnSig>)
    requires SortedByName(a + b)
    ensures SortedByName(a) && SortedByName(b)
  {
    forall i, j | 0 <= i < j < |a|
      ensures StringLe(a[i].name, a[j].name)
    {
      assert (a + b)[i] == a[i] && (a + b)[j] == a[j];
    }
    forall i, j | 0 <= i < j < |b|
      ensures StringLe(b[i].name, b[j].name)
    {
      assert (a + b)[|a| + i] == b[i] && (a + b)[|a| + j] == b[j];
    }
  }

  method InsertByName(cs: seq<ColumnSig>, c: ColumnSig) returns (r: seq<ColumnSig>)
    requires SortedByName(cs)
    ensures SortedByName(r) && multiset(r) == multiset(cs) + multiset{c}
  {
    var i := |cs|;
    while i > 0 && StringLt(c.name, cs[i - 1].name)
      invariant 0 <= i <= |cs|
      invariant i < |cs| ==> StringLe(c.name, cs[i].name)
    {
      i := i - 1;
    }
    ghost var a, b := cs[..i], cs[i..];
    assert cs == a + b;
    r := cs[..i] + [c] + cs[i..];
    SortedParts(a, b);
    if i > 0 {
      LeTotal(cs[i - 1].name, c.name);
      ReflexiveOr(cs[i - 1].name, c.name);
    }
    SortedJoin(a, [c]);
    assert (a + [c])[|a + [c]| - 1] == c;
    SortedJoin(a + [c], b);
    InsertedMultiset(a, c, b);
  }

  lemma InsertedMultiset<T>(a: seq<T>, x: T, b: seq<T>)
    ensures multiset(a + [x] + b) == multiset(a + b) + multiset{x}
  {
  }

  method SortByName(cs: seq<ColumnSig>) returns (r: seq<ColumnSig>)
    ensures SortedByName(r) && multiset(r) == multiset(cs)
  {
    r := [];
    for i := 0 to |cs|
      invariant SortedByName(r) && multiset(r) == multiset(cs[..i])
    {
      r := InsertByName(r, cs[i]);
      assert cs[..i + 1] == cs[..i] + [cs[i]];
    }
    assert cs[..|cs|] == cs;
  }

  /** Order-independent equality: for schemas with unique names, the same columns in any order. */
  method SigsEqual(a: seq<ColumnSig>, b: seq<ColumnSig>) returns (equal: bool)
    ensures equal ==> multiset(a) == multiset(b)
    ensures UniqueNames(a) && multiset(a) == multiset(b) ==> equal
  {
    if |a| != |b| {
      assert multiset(a) == multiset(b) ==> |multiset(a)| == |a| && |multiset(b)| == |b|;
      return false;
    }
    var sa := SortByName(a);
    var sb := SortByName(b);
    SameLength(sa, a);
    SameLength(sb, b);
    equal := true;
    for i := 0 to |sa|
      invariant equal ==> sa[..i] == sb[..i]
      invariant !equal ==> sa != sb
    {
      if sa[i].name != sb[i].name || sa[i].typ != sb[i].typ || sa[i].classification != sb[i].classification {
        equal := false;
      }
      assert sa[..i + 1] == sa[..i] + [sa[i]] && sb[..i + 1] == sb[..i] + [sb[i]];
    }
    assert sa[..|sa|] == sa && sb[..|sb|] == sb;
    if UniqueNames(a) && multiset(a) == multiset(b) {
      UniquePermutes(a, sa);
      SortedUnique(sa, sb);
    }
  }

  lemma SameLength<T>(a: seq<T>, b: seq<T>)
    requires multiset(a) == multiset(b)
    ensures |a| == |b|
  {
    assert |multiset(a)| == |a| && |multiset(b)| == |b|;
  }

  lemma {:induction false} NamesOnce(cs: seq<ColumnSig>, c: ColumnSig)
    requires UniqueNames(cs)
    ensures multiset(cs)[c] == if c in cs then 1 else 0
  {
    if cs != [] {
      var last := |cs| - 1;
      NamesOnce(cs[..last], c);
      assert cs == cs[..last] + [cs[last]];
      assert forall i :: 0 <= i < last ==> cs[i].name != cs[last].name;
    }
  }

  lemma TwiceCounts<T>(s: seq<T>, i: nat, j: nat)
    requires i < j < |s| && s[i] == s[j]
    ensures multiset(s)[s[i]] >= 2
  {
    assert s == s[..i] + [s[i]] + s[i + 1..j] + [s[j]] + s[j + 1..];
  }

  lemma UniquePermutes(a: seq<ColumnSig>, s: seq<ColumnSig>)
    requires UniqueNames(a) && multiset(a) == multiset(s)
    ensures UniqueNames(s)
  {
    forall i, j | 0 <= i < |s| && 0 <= j < |s| && i != j
      ensures s[i].name != s[j].name
    {
      assert s[i] in multiset(a) && s[j] in multiset(a);
      NamesOnce(a, s[i]);
      var p :| 0 <= p < |a| && a[p] == s[i];
      var q :| 0 <= q < |a| && a[q] == s[j];
      if s[i].name == s[j].name {
        assert p == q;
        TwiceCounts(s, if i < j then i else j, if i < j then j else i);
        assert false;
      }
    }
  }

  lemma FirstName(a: seq<ColumnSig>, i: nat)
    requires SortedByName(a) && i < |a|
    ensures StringLe(a[0].name, a[i].name)
  {
    ReflexiveOr(a[0].name, a[i].name);
  }

  lemma SameFirst(a: seq<ColumnSig>, b: seq<ColumnSig>)
    requires SortedByName(a) && SortedByName(b) && UniqueNames(a) && multiset(a) == multiset(b) && a != [] && b != []
    ensures a[0] == b[0]
  {
    assert a[0] in multiset(b) && b[0] in multiset(a);
    var p :| 0 <= p < |b| && b[p] == a[0];
    var q :| 0 <= q < |a| && a[q] == b[0];
    FirstName(b, p);
    FirstName(a, q);
    LeAntisymmetric(a[0].name, b[0].name);
  }

  lemma TailMultiset<T>(a: seq<T>)
    requires a != []
    ensures multiset(a) == multiset{a[0]} + multiset(a[1..]) && multiset(a[1..]) == multiset(a) - multiset{a[0]}
  {
    assert a == [a[0]] + a[1..];
  }

  lemma SortedTail(a: seq<ColumnSig>)
    requires SortedByName(a) && UniqueNames(a) && a != []
    ensures SortedByName(a[1..]) && UniqueNames(a[1..])
  {
  }

  /** A list with unique names has one order by name. */
  lemma {:induction false} SortedUnique(a: seq<ColumnSig>, b: seq<ColumnSig>)
    requires SortedByName(a) && SortedByName(b) && UniqueNames(a) && multiset(a) == multiset(b)
    ensures a == b
    decreases |a|
  {
    SameLength(a, b);
    if a != [] {
      UniquePermutes(a, b);
      SameFirst(a, b);
      TailMultiset(a);
      TailMultiset(b);
      SortedTail(a);
      SortedTail(b);
      SortedUnique(a[1..], b[1..]);
      assert a == [a[0]] + a[1..] && b == [b[0]] + b[1..];
    }
  }

  // ----- the kind of change -----

  /** Types by name; a repeated name keeps its last type. */
  function Types(cs: seq<ColumnSig>): map<string, string> {
    if cs == [] then map[]
    else
      var c := cs[|cs| - 1];
      Types(cs[..|cs| - 1])[c.name := c.typ]
  }

  method TypesByName(cs: seq<ColumnSig>) returns (m: map<string, string>)
    ensures m == Types(cs)
  {
    m := map[];
    for i := 0 to |cs|
      invariant m == Types(cs[..i])
    {
      assert cs[..i + 1][..i] == cs[..i];
      m := m[cs[i].name := cs[i].typ];
    }
    assert cs[..|cs|] == cs;
  }

  /** Every (name, type) column of `old` is in `new`. */
  predicate Keeps(older: map<string, string>, newer: map<string, string>) {
    forall name :: name in older ==> name in newer && newer[name] == older[name]
  }

  function Diff(prev: seq<ColumnSig>, next: seq<ColumnSig>): Bump {
    if !Keeps(Types(prev), Types(next)) then Major
    else if exists name :: name in Types(next) && name !in Types(prev) then Minor
    else Patch
  }

  method DiffBump(prev: seq<ColumnSig>, next: seq<ColumnSig>) returns (bump: Bump)
    ensures bump == Diff(prev, next)
  {
    var prevByName := TypesByName(prev);
    var nextByName := TypesByName(next);
    var todo := prevByName.Keys;
    while todo != {}
      invariant todo <= prevByName.Keys
      invariant forall name :: name in prevByName && name !in todo ==> name in nextByName && nextByName[name] == prevByName[name]
      decreases |todo|
    {
      var name :| name in todo;
      if name !in nextByName || nextByName[name] != prevByName[name] {
        return Major;
      }
      todo := todo - {name};
    }
    todo := nextByName.Keys;
    while todo != {}
      invariant todo <= nextByName.Keys
      invariant forall name :: name in nextByName && name !in todo ==> name in prevByName
      decreases |todo|
    {
      var name :| name in todo;
      if name !in prevByName {
        return Minor;
      }
      todo := todo - {name};
    }
    bump := Patch;
  }

  // ----- version numbers -----

  datatype Version = Version(major: nat, minor: nat, patch: nat)

  /** Precedence of release versions. */
  predicate Precedes(a: Version, b: Version) {
    a.major < b.major
    || (a.major == b.major && (a.minor < b.minor || (a.minor == b.minor && a.patch < b.patch)))
  }

  function Format(v: Version): string {
    Digits(v.major) + "." + Digits(v.minor) + "." + Digits(v.patch)
  }

  /** The longest prefix of digits. */
  function DigitRun(s: string): nat {
    if s != "" && '0' <= s[0] <= '9' then 1 + DigitRun(s[1..]) else 0
  }

  lemma {:induction false} DigitRunBound(s: string)
    ensures DigitRun(s) <= |s|
    ensures forall i :: 0 <= i < DigitRun(s) ==> '0' <= s[i] <= '9'
  {
    if s != "" && '0' <= s[0] <= '9' {
      DigitRunBound(s[1..]);
    }
  }

  /** A number at the start of a text, and what follows it. */
  function LeadingNumber(s: string): Option<(nat, string)> {
    DigitRunBound(s);
    match ParseDigits(s[..DigitRun(s)])
    case None => None
    case Some(n) => Some((n, s[DigitRun(s)..]))
  }

  function AfterDot(s: string): Option<string> {
    if s != "" && s[0] == '.' then Some(s[1..]) else None
  }

  /** The leading x.y.z of a version text; anything behind it is ignored. */
  function ParseVersion(s: string): Option<Version> {
    match LeadingNumber(s)
    case None => None
    case Some((major, r1)) =>
      (match AfterDot(r1)
       case None => None
       case Some(s2) =>
         (match LeadingNumber(s2)
          case None => None
          case Some((minor, r2)) =>
            (match AfterDot(r2)
             case None => None
             case Some(s3) =>
               (match LeadingNumber(s3)
                case None => None
                case Some((patch, _)) => Some(Version(major, minor, patch))))))
  }

  lemma {:induction false} DigitRunOf(a: string, rest: string)
    requires forall i :: 0 <= i < |a| ==> '0' <= a[i] <= '9'
    requires rest != "" ==> !('0' <= rest[0] <= '9')
    ensures DigitRun(a + rest) == |a|
  {
    if a == "" {
      assert a + rest == rest;
    } else {
      assert (a + rest)[0] == a[0] && (a + rest)[1..] == a[1..] + rest;
      DigitRunOf(a[1..], rest);
    }
  }

  lemma {:induction false} DigitsAreDigits(n: nat)
    ensures forall i :: 0 <= i < |Digits(n)| ==> '0' <= Digits(n)[i] <= '9'
  {
    if n >= 10 {
      DigitsAreDigits(n / 10);
    }
  }

  lemma LeadingDigits(n: nat, rest: string)
    requires rest != "" ==> !('0' <= rest[0] <= '9')
    ensures LeadingNumber(Digits(n) + rest) == Some((n, rest))
  {
    DigitsAreDigits(n);
    DigitRunOf(Digits(n), rest);
    ParseDigitsInverts(n);
    var s := Digits(n) + rest;
    assert s[..|Digits(n)|] == Digits(n) && s[|Digits(n)|..] == rest;
  }

  /** Formatting and parsing are inverse, also with prerelease or build text behind. */
  lemma FormatParses(v: Version, suffix: string)
    requires suffix != "" ==> !('0' <= suffix[0] <= '9')
    ensures ParseVersion(Format(v) + suffix) == Some(v)
  {
    var s3 := Digits(v.patch) + suffix;
    var s2 := Digits(v.minor) + ("." + s3);
    assert Format(v) + suffix == Digits(v.major) + ("." + s2);
    LeadingDigits(v.major, "." + s2);
    LeadingDigits(v.minor, "." + s3);
    LeadingDigits(v.patch, suffix);
    assert ("." + s2)[1..] == s2 && ("." + s3)[1..] == s3;
  }

  function Bumped(v: Version, bump: Bump): Version {
    match bump
    case Major => Version(v.major + 1, 0, 0)
    case Minor => Version(v.major, v.minor + 1, 0)
    case Patch => Version(v.major, v.minor, v.patch + 1)
  }

  /** The bump applied to the leading x.y.z of the last version, or 1.0.0 when it has none. */
  function NextVersion(last: string, prev: seq<ColumnSig>, next: seq<ColumnSig>): string {
    match ParseVersion(last)
    case None => "1.0.0"
    case Some(v) => Format(Bumped(v, Diff(prev, next)))
  }

  method ComputeVersionBump(prev: seq<ColumnSig>, next: seq<ColumnSig>, prevVersion: string) returns (version: string)
    ensures version == NextVersion(prevVersion, prev, next)
  {
    var m := ParseVersion(prevVersion);
    if m.None? {
      return "1.0.0";
    }
    var major, minor, patch := m.value.major, m.value.minor, m.value.patch;
    var bump := DiffBump(prev, next);
    match bump {
      case Major => major, minor, patch := major + 1, 0, 0;
      case Minor => minor, patch := minor + 1, 0;
      case Patch => patch := patch + 1;
    }
    version := Format(Version(major, minor, patch));
  }

  // ----- publishing -----

  datatype Action = Created | Published | Unchanged

  /** A published package: its version and the schema embedded in it. */
  datatype Release = Release(version: string, columns: seq<ColumnSig>)

  method DecidePublishAction(latest: Option<string>, prevSchema: Option<seq<ColumnSig>>, next: seq<ColumnSig>)
    returns (action: Action, version: string)
    ensures action == Created <==> latest == None
    ensures action == Created ==> version == "1.0.0"
    ensures action == Unchanged ==> latest == Some(version) && prevSchema.Some? && multiset(prevSchema.value) == multiset(next)
    ensures latest.Some? && prevSchema.Some? && UniqueNames(next) && multiset(prevSchema.value) == multiset(next) ==> action == Unchanged
    ensures action == Published ==>
              latest.Some? && version == NextVersion(latest.value, if prevSchema.Some? then prevSchema.value else [], next)
  {
    if latest.None? {
      return Created, "1.0.0";
    }
    if prevSchema.Some? {
      var same := SigsEqual(next, prevSchema.value);
      if same {
        return Unchanged, latest.value;
      }
    }
    action := Published;
    version := ComputeVersionBump(if prevSchema.Some? then prevSchema.value else [], next, latest.value);
  }

  /** The versions of a history, oldest first. */
  ghost predicate Parses(history: seq<Release>) {
    forall i :: 0 <= i < |history| ==> ParseVersion(history[i].version).Some?
  }

  ghost predicate Ordered(history: seq<Release>, i: nat, j: nat)
    requires Parses(history) && i < j < |history|
  {
    var a, b := ParseVersion(history[i].version).value, ParseVersion(history[j].version).value;
    Precedes(a, b) && (a.major == b.major ==> Keeps(Types(history[i].columns), Types(history[j].columns)))
  }

  /** Versions increase with every publish, and within a major number no column is lost or retyped. */
  ghost predicate Faithful(history: seq<Release>) {
    Parses(history) && forall i, j :: 0 <= i < j < |history| ==> Ordered(history, i, j)
  }

  class Registry {
    var history: seq<Release>

    constructor ()
      ensures history == [] && Faithful(history)
    {
      history := [];
    }

    /** Publishes a schema; the history of releases stays faithful whatever is published. */
    method Publish(next: seq<ColumnSig>) returns (action: Action)
      requires Faithful(history)
      modifies this
      ensures Faithful(history)
      ensures action == Unchanged ==> history == old(history)
      ensures action != Unchanged ==> |history| == |old(history)| + 1 && history[..|old(history)|] == old(history)
                                      && history[|old(history)|].columns == next
    {
      var latest := if |history| == 0 then None else Some(history[|history| - 1].version);
      var prev := if |history| == 0 then None else Some(history[|history| - 1].columns);
      var version;
      action, version := DecidePublishAction(latest, prev, next);
      if action != Unchanged {
        if |history| == 0 {
          FirstRelease(next);
        } else {
          NextRelease(history, Release(version, next));
        }
        history := history + [Release(version, next)];
      }
    }
  }

  lemma FirstRelease(next: seq<ColumnSig>)
    ensures Faithful([] + [Release("1.0.0", next)])
  {
  }

  lemma BumpPrecedes(v: Version, bump: Bump)
    ensures Precedes(v, Bumped(v, bump)) && (Bumped(v, bump).major == v.major <==> bump != Major)
  {
  }

  lemma FormatIsRead(v: Version)
    ensures ParseVersion(Format(v)) == Some(v)
  {
    FormatParses(v, "");
    assert Format(v) + "" == Format(v);
  }

  /** A bumped release comes behind the last one, and behind every earlier one. */
  lemma BumpOrdered(history: seq<Release>, next: Release, i: nat)
    requires Faithful(history) && i < |history|
    requires var last := history[|history| - 1];
             next.version == NextVersion(last.version, last.columns, next.columns)
    ensures Parses(history + [next]) && Ordered(history + [next], i, |history|)
  {
    var more := history + [next];
    var last := history[|history| - 1];
    var v := ParseVersion(last.version).value;
    var bump := Diff(last.columns, next.columns);
    BumpPrecedes(v, bump);
    FormatIsRead(Bumped(v, bump));
    assert forall k :: 0 <= k < |history| ==> more[k] == history[k];
    if i < |history| - 1 {
      assert Ordered(history, i, |history| - 1);
    }
  }

  /** A release derived from the last one extends a faithful history, whatever the new schema. */
  lemma NextRelease(history: seq<Release>, next: Release)
    requires Faithful(history) && history != []
    requires var last := history[|history| - 1];
             next.version == NextVersion(last.version, last.columns, next.columns)
    ensures Faithful(history + [next])
  {
    var more := history + [next];
    BumpOrdered(history, next, 0);
    forall i, j | 0 <= i < j < |more|
      ensures Ordered(more, i, j)
    {
      if j < |history| {
        assert Ordered(history, i, j);
        assert more[i] == history[i] && more[j] == history[j];
      } else {
        BumpOrdered(history, next, i);
      }
    }
  }

  // ----- column by column -----

  ghost predicate HasColumn(cs: seq<ColumnSig>, name: string, typ: string) {
    exists i :: 0 <= i < |cs| && cs[i].name == name && cs[i].typ == typ
  }

  /** Every (name, type) column of the older list is in the newer one. */
  ghost predicate KeepsColumns(older: seq<ColumnSig>, newer: seq<ColumnSig>) {
    forall i :: 0 <= i < |older| ==> HasColumn(newer, older[i].name, older[i].typ)
  }

  lemma {:induction false} TypesAreColumns(cs: seq<ColumnSig>, name: string)
    requires name in Types(cs)
    ensures HasColumn(cs, name, Types(cs)[name])
  {
    var last := |cs| - 1;
    if cs[last].name != name {
      TypesAreColumns(cs[..last], name);
      var i :| 0 <= i < last && cs[..last][i].name == name && cs[..last][i].typ == Types(cs[..last])[name];
      assert cs[i].name == name;
    }
  }

  lemma {:induction false} ColumnsAreTypes(cs: seq<ColumnSig>, i: nat)
    requires i < |cs| && UniqueNames(cs)
    ensures cs[i].name in Types(cs) && Types(cs)[cs[i].name] == cs[i].typ
  {
    var last := |cs| - 1;
    if i < last {
      assert UniqueNames(cs[..last]);
      ColumnsAreTypes(cs[..last], i);
    }
  }

  /** For lists without repeated names, which is what loggers are validated to have, comparing the maps compares the columns. */
  lemma KeepsIffColumns(older: seq<ColumnSig>, newer: seq<ColumnSig>)
    requires UniqueNames(older) && UniqueNames(newer)
    ensures Keeps(Types(older), Types(newer)) <==> KeepsColumns(older, newer)
  {
    if Keeps(Types(older), Types(newer)) {
      forall i | 0 <= i < |older|
        ensures HasColumn(newer, older[i].name, older[i].typ)
      {
        ColumnsAreTypes(older, i);
        TypesAreColumns(newer, older[i].name);
      }
    }
    if KeepsColumns(older, newer) {
      forall name | name in Types(older)
        ensures name in Types(newer) && Types(newer)[name] == Types(older)[name]
      {
        TypesAreColumns(older, name);
        var i :| 0 <= i < |older| && older[i].name == name && older[i].typ == Types(older)[name];
        var j :| 0 <= j < |newer| && newer[j].name == older[i].name && newer[j].typ == older[i].typ;
        ColumnsAreTypes(newer, j);
      }
    }
  }

  /** A column whose name the older list does not have. */
  ghost predicate AddsColumn(older: seq<ColumnSig>, newer: seq<ColumnSig>) {
    exists i :: 0 <= i < |newer| && forall j :: 0 <= j < |older| ==> older[j].name != newer[i].name
  }

  lemma AddsIffNewName(older: seq<ColumnSig>, newer: seq<ColumnSig>)
    requires UniqueNames(older) && UniqueNames(newer)
    ensures AddsColumn(older, newer) <==> exists name :: name in Types(newer) && name !in Types(older)
  {
    if AddsColumn(older, newer) {
      var i :| 0 <= i < |newer| && forall j :: 0 <= j < |older| ==> older[j].name != newer[i].name;
      ColumnsAreTypes(newer, i);
      if newer[i].name in Types(older) {
        TypesAreColumns(older, newer[i].name);
      }
    }
    if name :| name in Types(newer) && name !in Types(older) {
      TypesAreColumns(newer, name);
      var i :| 0 <= i < |newer| && newer[i].name == name && newer[i].typ == Types(newer)[name];
      forall j | 0 <= j < |older|
        ensures older[j].name != newer[i].name
      {
        ColumnsAreTypes(older, j);
      }
    }
  }

  /**
   The number that goes up is told by the columns: the first one for a lost or retyped column, else the
   second one for an added column, else the third one; the numbers behind it return to 0.
   */
  lemma NumbersFollowColumns(last: string, v: Version, prev: seq<ColumnSig>, next: seq<ColumnSig>)
    requires ParseVersion(last) == Some(v) && UniqueNames(prev) && UniqueNames(next)
    ensures ParseVersion(NextVersion(last, prev, next))
         == Some(if !KeepsColumns(prev, next) then Version(v.major + 1, 0, 0)
                 else if AddsColumn(prev, next) then Version(v.major, v.minor + 1, 0)
                 else Version(v.major, v.minor, v.patch + 1))
  {
    KeepsIffColumns(prev, next);
    AddsIffNewName(prev, next);
    FormatIsRead(Bumped(v, Diff(prev, next)));
  }

  /** So in any faithful history of such schemas, no release loses a column of an earlier one with the same major number. */
  lemma PublishedColumnsStay(history: seq<Release>, i: nat, j: nat)
    requires Faithful(history) && i < j < |history|
    requires UniqueNames(history[i].columns) && UniqueNames(history[j].columns)
    requires ParseVersion(history[i].version).value.major == ParseVersion(history[j].version).value.major
    ensures KeepsColumns(history[i].columns, history[j].columns)
  {
    assert Ordered(history, i, j);
    KeepsIffColumns(history[i].columns, history[j].columns);
  }

  /** A repeated name hides its earlier type: dropping that one counts as no loss. */
  lemma RepeatedNameHidesLoss(name: string, a: ColumnSig, b: ColumnSig)
    requires a.name == b.name == name && a.typ != b.typ
    ensures Diff([a, b], [b]) == Patch && !KeepsColumns([a, b], [b])
  {
    var both, first, second := [a, b], [a], [b];
    assert both[..1] == first && first[..0] == [] && second[..0] == [];
    assert Types(first) == map[name := a.typ] && Types(second) == map[name := b.typ];
    assert Types(both) == Types(first)[name := b.typ] == map[name := b.typ];
    assert both[0] == a;
  }
}
