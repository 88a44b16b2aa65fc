/** Choosing the newest operator version: comparison, sorting and the first match. */
module Versions {
  import opened Plans
  import opened Order

  datatype Operator = Operator(name: string, operatorVersion: string, appVersion: string)

  /** Which strings are semantic versions, and how those compare. */
  datatype SemVer = SemVer(parses: string -> bool, compare: (string, string) -> int)

  /** Precedence, section 11 of Semantic Versioning 2.0.0: a total preorder. */
  ghost predicate Precedence(v: SemVer) {
    && (forall x :: v.parses(x) ==> v.compare(x, x) == 0)
    && (forall x, y :: v.parses(x) && v.parses(y) ==> (v.compare(x, y) < 0 <==> v.compare(y, x) > 0))
    && (forall x, y, z :: v.parses(x) && v.parses(y) && v.parses(z) && v.compare(x, y) <= 0 && v.compare(y, z) <= 0 ==>
      v.compare(x, z) <= 0)
  }

  /** Semantic versions by precedence, other strings by their text and below them. */
  function CompareVersion(v: SemVer, x: string, y: string): int {
    if x == y then 0
    else if v.parses(x) && v.parses(y) then v.compare(x, y)
    else if !v.parses(x) && !v.parses(y) then if StringLess(x, y) then -1 else 1
    else if !v.parses(x) then -1
    else 1
  }

  lemma {:induction false} CompareIsAntisymmetric(v: SemVer, x: string, y: string)
    requires Precedence(v)
    ensures CompareVersion(v, x, y) < 0 <==> CompareVersion(v, y, x) > 0
  {
    StringTotal(x, y);
  }

  lemma {:induction false} CompareIsTransitive(v: SemVer, x: string, y: string, z: string)
    requires Precedence(v) && CompareVersion(v, x, y) <= 0 && CompareVersion(v, y, z) <= 0
    ensures CompareVersion(v, x, z) <= 0
  {
    if x != y && y != z && !v.parses(x) && !v.parses(y) && !v.parses(z) { StringTransitive(x, y, z); }
  }

  /** `compareVersion` induces a strict weak order on all strings, parsable or not. */
  lemma {:induction false} VersionsAreOrdered(v: SemVer)
    requires Precedence(v)
    ensures StrictWeakOrder((x, y) => CompareVersion(v, x, y) < 0)
  {
    forall x, y ensures CompareVersion(v, x, y) < 0 <==> CompareVersion(v, y, x) > 0 {
      CompareIsAntisymmetric(v, x, y);
    }
    forall x, y, z ensures CompareVersion(v, x, y) <= 0 && CompareVersion(v, y, z) <= 0 ==>
      CompareVersion(v, x, z) <= 0 {
      if CompareVersion(v, x, y) <= 0 && CompareVersion(v, y, z) <= 0 { CompareIsTransitive(v, x, y, z); }
    }
    assert forall x, y :: CompareVersion(v, x, y) >= 0 ==> CompareVersion(v, y, x) <= 0;
  }

  /** Older by app version, then by operator version. */
  predicate Older(v: SemVer, x: Operator, y: Operator) {
    var byApp := CompareVersion(v, x.appVersion, y.appVersion);
    if byApp != 0 then byApp < 0 else CompareVersion(v, x.operatorVersion, y.operatorVersion) < 0
  }

  /** Names come in alphabetical order once the whole order is reversed. */
  predicate Less(v: SemVer, x: Operator, y: Operator) {
    if x.name != y.name then StringLess(y.name, x.name) else Older(v, x, y)
  }

  lemma {:induction false} OlderIsTransitive(v: SemVer, x: Operator, y: Operator, z: Operator)
    requires Precedence(v) && !Older(v, y, x) && !Older(v, z, y)
    ensures !Older(v, z, x)
  {
    CompareFacts(v, x.appVersion, y.appVersion, z.appVersion);
    CompareFacts(v, x.operatorVersion, y.operatorVersion, z.operatorVersion);
  }

  lemma {:induction false} CompareFacts(v: SemVer, x: string, y: string, z: string)
    requires Precedence(v)
    ensures CompareVersion(v, x, y) < 0 <==> CompareVersion(v, y, x) > 0
    ensures CompareVersion(v, y, z) < 0 <==> CompareVersion(v, z, y) > 0
    ensures CompareVersion(v, x, z) < 0 <==> CompareVersion(v, z, x) > 0
    ensures CompareVersion(v, x, y) <= 0 && CompareVersion(v, y, z) <= 0 ==> CompareVersion(v, x, z) <= 0
    ensures CompareVersion(v, z, y) <= 0 && CompareVersion(v, y, x) <= 0 ==> CompareVersion(v, z, x) <= 0
    ensures CompareVersion(v, y, z) <= 0 && CompareVersion(v, z, x) <= 0 ==> CompareVersion(v, y, x) <= 0
    ensures CompareVersion(v, z, x) <= 0 && CompareVersion(v, x, y) <= 0 ==> CompareVersion(v, z, y) <= 0
  {
    CompareIsAntisymmetric(v, x, y);
    CompareIsAntisymmetric(v, y, x);
    CompareIsAntisymmetric(v, y, z);
    CompareIsAntisymmetric(v, z, y);
    CompareIsAntisymmetric(v, x, z);
    CompareIsAntisymmetric(v, z, x);
    if CompareVersion(v, x, y) <= 0 && CompareVersion(v, y, z) <= 0 { CompareIsTransitive(v, x, y, z); }
    if CompareVersion(v, z, y) <= 0 && CompareVersion(v, y, x) <= 0 { CompareIsTransitive(v, z, y, x); }
    if CompareVersion(v, y, z) <= 0 && CompareVersion(v, z, x) <= 0 { CompareIsTransitive(v, y, z, x); }
    if CompareVersion(v, z, x) <= 0 && CompareVersion(v, x, y) <= 0 { CompareIsTransitive(v, z, x, y); }
  }

  lemma {:induction false} OlderIsAsymmetric(v: SemVer, x: Operator, y: Operator)
    requires Precedence(v)
    ensures !(Older(v, x, y) && Older(v, y, x))
  {
    CompareIsAntisymmetric(v, x.appVersion, y.appVersion);
    CompareIsAntisymmetric(v, x.operatorVersion, y.operatorVersion);
  }

  lemma {:induction false} LessWeak(v: SemVer, x: Operator, y: Operator, z: Operator)
    requires Precedence(v)
    ensures !Less(v, x, x) && !(Less(v, x, y) && Less(v, y, x))
    ensures Less(v, x, z) ==> Less(v, x, y) || Less(v, y, z)
  {
    StringTotal(x.name, y.name);
    StringTotal(y.name, z.name);
    StringTotal(x.name, z.name);
    OlderIsAsymmetric(v, x, y);
    if Less(v, x, z) && !Less(v, x, y) && !Less(v, y, z) {
      if x.name == y.name && y.name == z.name {
        OlderIsTransitive(v, z, y, x);
      } else if StringLess(x.name, y.name) && StringLess(y.name, z.name) {
        StringTransitive(x.name, y.name, z.name);
      }
    }
  }

  /** `sort.Reverse`: newest first. */
  predicate Before(v: SemVer, x: Operator, y: Operator) {
    Less(v, y, x)
  }

  lemma {:induction false} ListIsOrdered(v: SemVer)
    requires Precedence(v)
    ensures StrictWeakOrder((x, y) => Before(v, x, y))
  {
    forall x, y, z
      ensures !Before(v, x, x)
      ensures Before(v, x, z) ==> Before(v, x, y) || Before(v, y, z)
      ensures Before(v, x, y) && Before(v, y, z) ==> Before(v, x, z)
    {
      LessWeak(v, x, x, x);
      LessWeak(v, z, y, x);
      LessWeak(v, y, x, z);
      LessWeak(v, z, x, y);
      LessWeak(v, y, z, x);
      LessWeak(v, x, z, y);
    }
  }

  // ----- the order in terms of precedence and text -----

  /** A higher precedence is newer, and so is every semantic version than any other string; these
      go by their text. */
  ghost predicate Newer(v: SemVer, x: string, y: string) {
    || (v.parses(x) && v.parses(y) && v.compare(x, y) > 0)
    || (v.parses(x) && !v.parses(y))
    || (!v.parses(x) && !v.parses(y) && TextBelow(y, x))
  }

  ghost predicate SameAge(v: SemVer, x: string, y: string) {
    x == y || (v.parses(x) && v.parses(y) && v.compare(x, y) == 0)
  }

  lemma {:induction false} CompareExactly(v: SemVer, x: string, y: string)
    requires Precedence(v)
    ensures CompareVersion(v, x, y) > 0 <==> Newer(v, x, y)
    ensures CompareVersion(v, x, y) < 0 <==> Newer(v, y, x)
    ensures CompareVersion(v, x, y) == 0 <==> SameAge(v, x, y)
  {
    StringTotal(x, y);
    StringLessExactly(x, y);
    StringLessExactly(y, x);
    CompareIsAntisymmetric(v, x, y);
  }

  /** The list goes by name, and for one name from newer to older app versions, and for one app
      version from newer to older operator versions. */
  lemma {:induction false} BeforeExactly(v: SemVer, x: Operator, y: Operator)
    requires Precedence(v)
    ensures Before(v, x, y) <==>
              || TextBelow(x.name, y.name)
              || (x.name == y.name && Newer(v, x.appVersion, y.appVersion))
              || (x.name == y.name && SameAge(v, x.appVersion, y.appVersion)
                  && Newer(v, x.operatorVersion, y.operatorVersion))
  {
    StringTotal(x.name, y.name);
    StringLessExactly(x.name, y.name);
    CompareExactly(v, x.appVersion, y.appVersion);
    CompareExactly(v, y.appVersion, x.appVersion);
    CompareExactly(v, x.operatorVersion, y.operatorVersion);
    CompareExactly(v, y.operatorVersion, x.operatorVersion);
  }

  // ----- the operations on lists -----

  method FilterByName(list: seq<Operator>, name: string) returns (r: seq<Operator>)
    ensures forall o :: o in r <==> o in list && o.name == name
  {
    r := [];
    for i := 0 to |list|
      invariant forall o :: o in r <==> o in list[..i] && o.name == name
    {
      assert list[..i + 1] == list[..i] + [list[i]];
      if list[i].name == name { r := r + [list[i]]; }
    }
    assert list[..|list|] == list;
  }

  predicate Matches(o: Operator, name: string, operatorVersion: string, appVersion: string) {
    && name == o.name
    && (operatorVersion == "" || operatorVersion == o.operatorVersion)
    && (appVersion == "" || appVersion == o.appVersion)
  }

  method FindFirstMatch(list: seq<Operator>, name: string, operatorVersion: string, appVersion: string)
    returns (r: Option<Operator>)
    ensures r.None? <==> forall o | o in list :: !Matches(o, name, operatorVersion, appVersion)
    ensures r.Some? ==> Matches(r.value, name, operatorVersion, appVersion)
    ensures r.Some? ==>
              exists i :: 0 <= i < |list| && list[i] == r.value && forall k | 0 <= k < i ::
                !Matches(list[k], name, operatorVersion, appVersion)
  {
    for i := 0 to |list|
      invariant forall k | 0 <= k < i :: !Matches(list[k], name, operatorVersion, appVersion)
    {
      if Matches(list[i], name, operatorVersion, appVersion) { return Some(list[i]); }
    }
    return None;
  }

  /** What is asked for: the name, and the versions where they are given. */
  ghost predicate AskedFor(o: Operator, name: string, operatorVersion: string, appVersion: string) {
    && o.name == name
    && (operatorVersion != "" ==> o.operatorVersion == operatorVersion)
    && (appVersion != "" ==> o.appVersion == appVersion)
  }

  /** Filter, sort, first match: the result is asked for, and nothing asked for has a newer app
      version or, with an app version of the same age, a newer operator version; there is no
      result exactly when nothing in the list is asked for. */
  method NewestMatch(v: SemVer, list: seq<Operator>, name: string, operatorVersion: string, appVersion: string)
    returns (r: Option<Operator>)
    requires Precedence(v)
    ensures r.None? <==> forall o | o in list :: !AskedFor(o, name, operatorVersion, appVersion)
    ensures r.Some? ==> r.value in list && AskedFor(r.value, name, operatorVersion, appVersion)
    ensures r.Some? ==>
              forall o | o in list && AskedFor(o, name, operatorVersion, appVersion) ::
                && !Newer(v, o.appVersion, r.value.appVersion)
                && (SameAge(v, o.appVersion, r.value.appVersion) ==>
                    !Newer(v, o.operatorVersion, r.value.operatorVersion))
  {
    var named := FilterByName(list, name);
    ListIsOrdered(v);
    var sorted := Sort((x, y) => Before(v, x, y), named);
    assert forall o :: (o in named <==> o in multiset(named)) && (o in sorted <==> o in multiset(sorted));
    r := FindFirstMatch(sorted, name, operatorVersion, appVersion);
    if r.Some? {
      ghost var i :| 0 <= i < |sorted| && sorted[i] == r.value && forall k | 0 <= k < i ::
        !Matches(sorted[k], name, operatorVersion, appVersion);
      forall o | o in list && AskedFor(o, name, operatorVersion, appVersion)
        ensures !Newer(v, o.appVersion, r.value.appVersion)
        ensures SameAge(v, o.appVersion, r.value.appVersion) ==> !Newer(v, o.operatorVersion, r.value.operatorVersion)
      {
        assert Matches(o, name, operatorVersion, appVersion) && o in sorted;
        var j :| 0 <= j < |sorted| && sorted[j] == o;
        if j == i { LessWeak(v, o, o, o); } else { assert i < j && !Before(v, sorted[j], sorted[i]); }
        BeforeExactly(v, o, r.value);
      }
    }
  }
}
