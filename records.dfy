/**
 A pinned result (`Record`) and the equality engine that decides whether a
 freshly computed `Result` is the one that was pinned: the plugin id is
 compared exactly, the title and the subtitle either exactly or, when the
 result carries a regex for that field, through `AdvancedStringComparer`.
 */
module Records {
  import opened Wrappers
  import opened Plugin

  /**
   What the comparer looks at in a successful match: the whole match when the
   pattern has no capturing group, else the captured groups only.
   */
  function ComparedParts(groups: seq<string>): (parts: seq<string>)
  {
    if |groups| <= 1 then groups else groups[1..]
  }

  /**
   The decision the comparer takes once both strings matched: different group
   counts are unequal; a lone group 0 compares the whole matches; otherwise
   the groups 1 .. n-1 are compared pairwise. Equivalently, the group counts
   and the compared parts agree: group 0 is ignored as soon as there is a
   capturing group, and so is all text outside the groups.
   */
  predicate MatchedPartsEqual(groups1: seq<string>, groups2: seq<string>)
    ensures MatchedPartsEqual(groups1, groups2)
        <==> |groups1| == |groups2| && ComparedParts(groups1) == ComparedParts(groups2)
  {
    && |groups1| == |groups2|
    && if |groups1| == 1 then groups1[0] == groups2[0]
       else forall i :: 1 <= i < |groups1| ==> groups1[i] == groups2[i]
  }

  /**
   What decides a comparison: the string itself when it does not match, else
   the number of groups and the compared parts of its match.
   */
  datatype ComparisonKey = Unmatched(text: string) | Matched(groupCount: nat, parts: seq<string>)

  /**
   Compares two strings through a regex. `Equivalent` states what is decided,
   `Equal` decides it with the source's loop.
   */
  datatype AdvancedStringComparer = AdvancedStringComparer(regex: Regex)
  {
    function KeyOf(str: string): (key: ComparisonKey)
    {
      match regex.Match(str)
      case None => Unmatched(str)
      case Some(groups) => Matched(|groups|, ComparedParts(groups))
    }

    /**
     Both strings match: compare the matched parts; otherwise compare the
     strings as they are. The answer is exactly whether the two strings have
     the same comparison key, which makes the comparer an equivalence.
     */
    predicate Equivalent(str1: string, str2: string)
      ensures Equivalent(str1, str2) <==> KeyOf(str1) == KeyOf(str2)
    {
      match (regex.Match(str1), regex.Match(str2))
      case (Some(groups1), Some(groups2)) => MatchedPartsEqual(groups1, groups2)
      case _ => str1 == str2
    }

    method Equal(str1: string, str2: string) returns (equal: bool)
      ensures equal == Equivalent(str1, str2)
    {
      var match1 := regex.Match(str1);
      var match2 := regex.Match(str2);
      var matchSuccess := match1.Some? && match2.Some?;
      if matchSuccess {
        var matchGroup1 := match1.value;
        var matchGroup2 := match2.value;
        if |matchGroup1| != |matchGroup2| {
          return false;
        }
        if |matchGroup1| == 1 {
          return matchGroup1[0] == matchGroup2[0];
        }
        var i := 1;
        while i < |matchGroup1|
          invariant forall j :: 1 <= j < i && j < |matchGroup1| ==> matchGroup1[j] == matchGroup2[j]
        {
          if matchGroup1[i] != matchGroup2[i] {
            return false;
          }
          i := i + 1;
        }
        return true;
      } else {
        return str1 == str2;
      }
    }
  }

  /** Either match failed: the comparer falls back to exact string equality. */
  lemma EquivalentOnFailedMatch(c: AdvancedStringComparer, str1: string, str2: string)
    requires c.regex.Match(str1).None? || c.regex.Match(str2).None?
    ensures c.Equivalent(str1, str2) <==> str1 == str2
  {
  }

  /** Both strings matched with different group counts: never equivalent. */
  lemma GroupCountMismatchIsUnequal(c: AdvancedStringComparer, str1: string, str2: string)
    requires c.regex.Match(str1).Some? && c.regex.Match(str2).Some?
    requires |c.regex.Match(str1).value| != |c.regex.Match(str2).value|
    ensures !c.Equivalent(str1, str2)
  {
  }

  /**
   Text outside the captured groups does not matter: two strings whose
   matches capture the same groups are equivalent, whatever their whole
   matches and the rest of the strings are.
   */
  lemma VolatileTextIgnored(c: AdvancedStringComparer, str1: string, str2: string)
    requires c.regex.Match(str1).Some? && c.regex.Match(str2).Some?
    requires |c.regex.Match(str1).value| == |c.regex.Match(str2).value| > 1
    requires c.regex.Match(str1).value[1..] == c.regex.Match(str2).value[1..]
    ensures c.Equivalent(str1, str2)
  {
  }

  /**
   The comparer is an equivalence relation under any regex: reflexive,
   symmetric and transitive, including across the fallback to exact equality
   (a string that matches is never equivalent to one that does not).
   */
  lemma EquivalentIsEquivalence(c: AdvancedStringComparer, str1: string, str2: string, str3: string)
    ensures c.Equivalent(str1, str1)
    ensures c.Equivalent(str1, str2) <==> c.Equivalent(str2, str1)
    ensures c.Equivalent(str1, str2) && c.Equivalent(str2, str3) ==> c.Equivalent(str1, str3)
  {
  }

  /**
   Whether a reference field and a candidate field agree: exactly when no
   regex is given, else when they have the same comparison key under it.
   */
  predicate FieldAgrees(reference: string, candidate: string, regex: Option<Regex>)
  {
    match regex
    case None => reference == candidate
    case Some(re) => AdvancedStringComparer(re).KeyOf(reference) == AdvancedStringComparer(re).KeyOf(candidate)
  }

  /** A pinned result: what is stored under a raw query. */
  datatype Record = Record(title: string, subTitle: string, pluginId: string)
  {
    /**
     Whether `r` is the result this record pins. The plugin id is always
     compared exactly; a field with no regex is compared exactly, a field with
     a regex through `AdvancedStringComparer`.
     */
    function Equals(r: Result, titleMatchRegex: Option<Regex>, subTitleMatchRegex: Option<Regex>): (equal: bool)
      ensures equal ==> pluginId == r.pluginId
      ensures titleMatchRegex.None? && equal ==> title == r.title
      ensures subTitleMatchRegex.None? && equal ==> subTitle == r.subTitle
      ensures titleMatchRegex.None? && subTitleMatchRegex.None? ==>
                (equal <==> this == Record(r.title, r.subTitle, r.pluginId))
      ensures this == Record(r.title, r.subTitle, r.pluginId) ==> equal
      ensures equal <==>
                && FieldAgrees(title, r.title, titleMatchRegex)
                && FieldAgrees(subTitle, r.subTitle, subTitleMatchRegex)
                && pluginId == r.pluginId
    {
      var titleEqual :=
        if titleMatchRegex.None? then title == r.title
        else AdvancedStringComparer(titleMatchRegex.value).Equivalent(title, r.title);
      var subTitleEqual :=
        if subTitleMatchRegex.None? then subTitle == r.subTitle
        else AdvancedStringComparer(subTitleMatchRegex.value).Equivalent(subTitle, r.subTitle);
      titleEqual && subTitleEqual && pluginId == r.pluginId
    }
  }
}
