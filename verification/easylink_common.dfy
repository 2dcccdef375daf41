/** Helpers of the EasyLink configurator script (ti/easylink/.meta/
    easylink_common.js): the C-identifier check, underscore-to-camel-case
    conversion, the device-family lookup by device-name pattern, and the
    comma-separated list parser. */
module EasylinkCommon {
  import opened Wrappers
  import opened JsStrings

  // ---------------------------------------------------------------------
  // isCName
  // ---------------------------------------------------------------------

  predicate IsIdentStart(ch: char)
  {
    'a' <= ch <= 'z' || 'A' <= ch <= 'Z' || ch == '_'
  }

  predicate IsIdentChar(ch: char)
  {
    IsIdentStart(ch) || '0' <= ch <= '9'
  }

  /** `[0-9a-zA-Z_]*$`, matched to the end of the string. */
  predicate IdentTail(s: string)
  {
    |s| == 0 || (IsIdentChar(s[0]) && IdentTail(s[1..]))
  }

  /** isCName: the empty string or a C identifier, `^[a-zA-Z_][0-9a-zA-Z_]*$`. */
  predicate IsCName(id: string)
  {
    (|id| >= 1 && IsIdentStart(id[0]) && IdentTail(id[1..])) || id == ""
  }

  lemma {:induction false} IdentTailAll(s: string)
    ensures IdentTail(s) <==> forall i :: 0 <= i < |s| ==> IsIdentChar(s[i])
  {
    if |s| > 0 {
      IdentTailAll(s[1..]);
      assert forall i :: 1 <= i < |s| ==> s[i] == s[1..][i - 1];
    }
  }

  /** A name is accepted exactly when it is empty, or starts with a letter
      or underscore and continues with letters, digits and underscores. */
  lemma IsCNameIff(id: string)
    ensures IsCName(id) <==>
            id == "" || (IsIdentStart(id[0]) && forall i :: 1 <= i < |id| ==> IsIdentChar(id[i]))
  {
    if |id| >= 1 {
      IdentTailAll(id[1..]);
      assert forall i :: 1 <= i < |id| ==> id[i] == id[1..][i - 1];
    }
  }

  // ---------------------------------------------------------------------
  // underscoreToCamelCase
  // ---------------------------------------------------------------------

  /** `p.charAt(0).toUpperCase() + p.slice(1).toLowerCase()`. */
  function Capitalize(p: string): (r: string)
    ensures |r| == |p|
  {
    if |p| == 0 then "" else [UpperChar(p[0])] + ToLower(p[1..])
  }

  function CapitalizeAll(ps: seq<string>): (r: seq<string>)
    ensures |r| == |ps|
    ensures forall i :: 0 <= i < |ps| ==> r[i] == Capitalize(ps[i])
  {
    if |ps| == 0 then [] else [Capitalize(ps[0])] + CapitalizeAll(ps[1..])
  }

  /** `s` with every `c` removed. */
  function RemoveChar(s: string, c: char): (r: string)
    ensures c !in r
  {
    if |s| == 0 then ""
    else if s[0] == c then RemoveChar(s[1..], c)
    else [s[0]] + RemoveChar(s[1..], c)
  }

  /** underscoreToCamelCase: nothing for an empty string or one with a
      space; otherwise each `_`-separated part capitalised and the parts
      joined without separator. */
  method UnderscoreToCamelCase(underscoreCase: string) returns (camelCase: Option<string>)
    ensures camelCase.None? <==> |underscoreCase| == 0 || ' ' in underscoreCase
    ensures camelCase.Some? ==>
              camelCase.value == Join(CapitalizeAll(Split(underscoreCase, '_')), "")
    ensures camelCase.Some? ==> '_' !in camelCase.value
    ensures camelCase.Some? ==> ToLower(camelCase.value) == ToLower(RemoveChar(underscoreCase, '_'))
  {
    camelCase := None;
    if |underscoreCase| > 0 && ' ' !in underscoreCase {
      var splitString := Split(underscoreCase, '_');
      ghost var parts := splitString;
      var i := 0;
      while i < |splitString|
        invariant 0 <= i <= |splitString| == |parts|
        invariant forall j :: 0 <= j < i ==> splitString[j] == Capitalize(parts[j])
        invariant forall j :: i <= j < |parts| ==> splitString[j] == parts[j]
      {
        splitString := splitString[i := Capitalize(splitString[i])];
        i := i + 1;
      }
      assert splitString == CapitalizeAll(parts);
      camelCase := Some(Join(splitString, ""));
      CamelCaseHasNoUnderscore(parts);
      CamelCaseLowered(underscoreCase);
    }
  }

  lemma {:induction false} JoinEmptyFree(ps: seq<string>, c: char)
    requires forall i :: 0 <= i < |ps| ==> c !in ps[i]
    ensures c !in Join(ps, "")
  {
    if |ps| > 1 {
      JoinEmptyFree(ps[1..], c);
    }
  }

  lemma CapitalizeFree(p: string, c: char)
    requires c !in p && !('a' <= c <= 'z') && !('A' <= c <= 'Z')
    ensures c !in Capitalize(p)
  {
  }

  /** The camel-case form of the parts of a split on `_` has no `_`. */
  lemma CamelCaseHasNoUnderscore(parts: seq<string>)
    requires forall i :: 0 <= i < |parts| ==> '_' !in parts[i]
    ensures '_' !in Join(CapitalizeAll(parts), "")
  {
    var caps := CapitalizeAll(parts);
    forall i | 0 <= i < |caps| ensures '_' !in caps[i] {
      CapitalizeFree(parts[i], '_');
    }
    JoinEmptyFree(caps, '_');
  }

  lemma {:induction false} ToLowerConcat(a: string, b: string)
    ensures ToLower(a + b) == ToLower(a) + ToLower(b)
  {
  }

  lemma LowerCapitalize(p: string)
    ensures ToLower(Capitalize(p)) == ToLower(p)
  {
    if |p| > 0 {
      var c := Capitalize(p);
      assert ToLower(c)[0] == LowerChar(UpperChar(p[0])) == LowerChar(p[0]);
      assert forall i :: 1 <= i < |p| ==> ToLower(c)[i] == LowerChar(LowerChar(p[i])) == LowerChar(p[i]);
    }
  }

  lemma {:induction false} LowerJoinCapitalized(ps: seq<string>)
    ensures ToLower(Join(CapitalizeAll(ps), "")) == ToLower(Join(ps, ""))
  {
    if |ps| == 1 {
      LowerCapitalize(ps[0]);
    } else if |ps| > 1 {
      var caps := CapitalizeAll(ps);
      assert caps[1..] == CapitalizeAll(ps[1..]);
      LowerJoinCapitalized(ps[1..]);
      ToLowerConcat(caps[0] + "", Join(caps[1..], ""));
      ToLowerConcat(ps[0] + "", Join(ps[1..], ""));
      LowerCapitalize(ps[0]);
      assert caps[0] + "" == caps[0] && ps[0] + "" == ps[0];
    }
  }

  /** Joining the parts of a split with no separator removes the separators. */
  lemma {:induction false} JoinSplitEmpty(s: string, c: char)
    ensures Join(Split(s, c), "") == RemoveChar(s, c)
  {
    if |s| > 0 {
      var rest := Split(s[1..], c);
      JoinSplitEmpty(s[1..], c);
      if s[0] == c {
        assert ([""] + rest)[1..] == rest;
        assert Join([""] + rest, "") == "" + "" + Join(rest, "");
      } else {
        JoinPrepend([s[0]], rest, "");
      }
    }
  }

  /** Lower-casing the camel-case form gives the lower-cased input without
      its underscores: the conversion only drops `_` and changes case. */
  lemma CamelCaseLowered(s: string)
    ensures ToLower(Join(CapitalizeAll(Split(s, '_')), "")) == ToLower(RemoveChar(s, '_'))
  {
    LowerJoinCapitalized(Split(s, '_'));
    JoinSplitEmpty(s, '_');
  }

  // ---------------------------------------------------------------------
  // device2DeviceFamily
  // ---------------------------------------------------------------------

  /** One element of a regular expression made of literal characters and `.`. */
  datatype PatElem = Lit(c: char) | AnyChar

  /** `.` matches every character but a line terminator. */
  predicate ElemMatches(e: PatElem, ch: char)
  {
    match e
    case Lit(c) => ch == c
    case AnyChar => ch != '\n' && ch != '\r' && ch as int != 0x2028 && ch as int != 0x2029
  }

  predicate MatchesPrefix(s: string, pat: seq<PatElem>)
  {
    |pat| <= |s| && forall i :: 0 <= i < |pat| ==> ElemMatches(pat[i], s[i])
  }

  /** `s.match(pat)` succeeds: the pattern matches somewhere in `s`. */
  predicate Search(s: string, pat: seq<PatElem>)
  {
    if |s| < |pat| then false else MatchesPrefix(s, pat) || Search(s[1..], pat)
  }

  /** A device family and the patterns, any of which selects it. */
  datatype FamilyRule = FamilyRule(patterns: seq<seq<PatElem>>, family: string)

  const CC13x2: seq<PatElem> :=
    [Lit('C'), Lit('C'), Lit('1'), Lit('3'), AnyChar, Lit('2')]
  const CC13x0: seq<PatElem> :=
    [Lit('C'), Lit('C'), Lit('1'), Lit('3'), AnyChar, Lit('0')]
  const CC26x0R2: seq<PatElem> :=
    [Lit('C'), Lit('C'), Lit('2'), Lit('6'), AnyChar, Lit('0'), Lit('R'), Lit('2')]
  const CC26x2: seq<PatElem> :=
    [Lit('C'), Lit('C'), Lit('2'), Lit('6'), AnyChar, Lit('2')]
  const CC26x0: seq<PatElem> :=
    [Lit('C'), Lit('C'), Lit('2'), Lit('6'), AnyChar, Lit('0')]
  const CC3220: seq<PatElem> :=
    [Lit('C'), Lit('C'), Lit('3'), Lit('2'), Lit('2'), Lit('0')]
  const MSP432E: seq<PatElem> :=
    [Lit('M'), Lit('S'), Lit('P'), Lit('4'), Lit('3'), Lit('2'), Lit('E')]
  const MSP432P4x1xI: seq<PatElem> :=
    [Lit('M'), Lit('S'), Lit('P'), Lit('4'), Lit('3'), Lit('2'), Lit('P'), Lit('4'), AnyChar,
     Lit('1'), AnyChar, Lit('I')]
  const MSP432P4111: seq<PatElem> :=
    [Lit('M'), Lit('S'), Lit('P'), Lit('4'), Lit('3'), Lit('2'), Lit('P'), Lit('4'), Lit('1'),
     Lit('1'), Lit('1')]
  const MSP432P4x1xT: seq<PatElem> :=
    [Lit('M'), Lit('S'), Lit('P'), Lit('4'), Lit('3'), Lit('2'), Lit('P'), Lit('4'), AnyChar,
     Lit('1'), AnyChar, Lit('T')]
  const MSP432P401: seq<PatElem> :=
    [Lit('M'), Lit('S'), Lit('P'), Lit('4'), Lit('3'), Lit('2'), Lit('P'), Lit('4'), Lit('0'),
     Lit('1')]

  /** The rules in the order they are tried. `MSP432E.*` is searched as
      `MSP432E`: a trailing `.*` may match the empty string. */
  const FamilyRules: seq<FamilyRule> := [
    FamilyRule([CC13x2], "DeviceFamily_CC13X2"),
    FamilyRule([CC13x0], "DeviceFamily_CC13X0"),
    FamilyRule([CC26x0R2], "DeviceFamily_CC26X0R2"),
    FamilyRule([CC26x2], "DeviceFamily_CC26X2"),
    FamilyRule([CC26x0], "DeviceFamily_CC26X0"),
    FamilyRule([CC3220], "DeviceFamily_CC3220"),
    FamilyRule([MSP432E], "DeviceFamily_MSP432E401Y"),
    FamilyRule([MSP432P4x1xI, MSP432P4111], "DeviceFamily_MSP432P4x1xI"),
    FamilyRule([MSP432P4x1xT], "DeviceFamily_MSP432P4x1xT"),
    FamilyRule([MSP432P401], "DeviceFamily_MSP432P401x")
  ]

  predicate RuleMatches(rule: FamilyRule, deviceId: string)
  {
    exists k :: 0 <= k < |rule.patterns| && Search(deviceId, rule.patterns[k])
  }

  /** The family of the first rule that matches, or "" if none does. */
  function FirstFamily(rules: seq<FamilyRule>, deviceId: string): string
  {
    if |rules| == 0 then ""
    else if RuleMatches(rules[0], deviceId) then rules[0].family
    else FirstFamily(rules[1..], deviceId)
  }

  /** device2DeviceFamily */
  function Device2DeviceFamily(deviceId: string): string
  {
    FirstFamily(FamilyRules, deviceId)
  }

  /** The result is the family of the first matching rule, and "" exactly
      when no rule matches (every family named is non-empty). */
  lemma {:induction false} FirstFamilyIsFirstMatch(rules: seq<FamilyRule>, deviceId: string)
    requires forall j :: 0 <= j < |rules| ==> rules[j].family != ""
    ensures FirstFamily(rules, deviceId) == "" <==> forall j :: 0 <= j < |rules| ==> !RuleMatches(rules[j], deviceId)
    ensures FirstFamily(rules, deviceId) != "" ==>
              exists k :: 0 <= k < |rules| && RuleMatches(rules[k], deviceId) &&
                (forall j :: 0 <= j < k ==> !RuleMatches(rules[j], deviceId)) &&
                FirstFamily(rules, deviceId) == rules[k].family
  {
    if |rules| > 0 && !RuleMatches(rules[0], deviceId) {
      FirstFamilyIsFirstMatch(rules[1..], deviceId);
      assert forall j :: 1 <= j < |rules| ==> rules[j] == rules[1..][j - 1];
      if FirstFamily(rules, deviceId) != "" {
        var k :| 0 <= k < |rules[1..]| && RuleMatches(rules[1..][k], deviceId) &&
                 (forall j :: 0 <= j < k ==> !RuleMatches(rules[1..][j], deviceId)) &&
                 FirstFamily(rules[1..], deviceId) == rules[1..][k].family;
        assert RuleMatches(rules[k + 1], deviceId);
      }
    } else if |rules| > 0 {
      assert RuleMatches(rules[0], deviceId);
    }
  }

  lemma Device2DeviceFamilyFirstMatch(deviceId: string)
    ensures Device2DeviceFamily(deviceId) == "" <==>
            forall j :: 0 <= j < |FamilyRules| ==> !RuleMatches(FamilyRules[j], deviceId)
    ensures Device2DeviceFamily(deviceId) != "" ==>
              exists k :: 0 <= k < |FamilyRules| && RuleMatches(FamilyRules[k], deviceId) &&
                (forall j :: 0 <= j < k ==> !RuleMatches(FamilyRules[j], deviceId)) &&
                Device2DeviceFamily(deviceId) == FamilyRules[k].family
  {
    FirstFamilyIsFirstMatch(FamilyRules, deviceId);
  }

  /** A pattern with a literal character the string lacks matches nowhere. */
  lemma {:induction false} SearchNeedsChar(s: string, pat: seq<PatElem>, k: nat)
    requires k < |pat| && pat[k].Lit? && pat[k].c !in s
    ensures !Search(s, pat)
  {
    if |s| >= |pat| {
      assert s[k] in s;
      assert pat[k].c !in s[1..];
      SearchNeedsChar(s[1..], pat, k);
    }
  }

  // ---------------------------------------------------------------------
  // stringToArray
  // ---------------------------------------------------------------------

  /** A character `\s` matches in a JavaScript regular expression. */
  predicate IsJsSpace(ch: char)
  {
    var u := ch as int;
    u == 0x20 || (0x09 <= u <= 0x0D) || u == 0xA0 || u == 0x1680 || (0x2000 <= u <= 0x200A) ||
    u == 0x2028 || u == 0x2029 || u == 0x202F || u == 0x205F || u == 0x3000 || u == 0xFEFF
  }

  /** `s.replace(/\s/g, "")`. */
  function StripSpaces(s: string): (r: string)
    ensures forall i :: 0 <= i < |r| ==> !IsJsSpace(r[i])
    ensures |r| <= |s|
  {
    if |s| == 0 then ""
    else if IsJsSpace(s[0]) then StripSpaces(s[1..])
    else [s[0]] + StripSpaces(s[1..])
  }

  /** stringToArray: the comma-separated items of `s` with all whitespace
      removed; no items when nothing but whitespace is given. */
  function StringToArray(s: string): (items: seq<string>)
    ensures items == [] <==> StripSpaces(s) == ""
    ensures forall i :: 0 <= i < |items| ==> ',' !in items[i]
    ensures forall i, j :: 0 <= i < |items| && 0 <= j < |items[i]| ==> !IsJsSpace(items[i][j])
    ensures items != [] ==> Join(items, ",") == StripSpaces(s)
  {
    var stripped := StripSpaces(s);
    if |stripped| > 0 then
      JoinSplit(stripped, ',');
      SplitKeepsChars(stripped, ',');
      Split(stripped, ',')
    else []
  }

  /** Every character of a split piece comes from the string. */
  lemma {:induction false} SplitKeepsChars(s: string, c: char)
    ensures forall i, j :: 0 <= i < |Split(s, c)| && 0 <= j < |Split(s, c)[i]| ==> Split(s, c)[i][j] in s
  {
    if |s| > 0 {
      SplitKeepsChars(s[1..], c);
      var rest := Split(s[1..], c);
      assert forall ch :: ch in s[1..] ==> ch in s;
      if s[0] != c {
        var head := [s[0]] + rest[0];
        assert forall j :: 1 <= j < |head| ==> head[j] == rest[0][j - 1];
      }
    }
  }
}
