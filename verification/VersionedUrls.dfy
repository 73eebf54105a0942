/** Package urls holding a placeholder for the bot's version. Python's str.replace is modelled as the
    leftmost, non-overlapping replacement. */
module VersionedUrls {
  const VERSION_PLACEHOLDER := "VERSION_PLACEHOLDER"
  const COMMUNITY_EXTENSIONS_PACKAGES_IDENTIFIER := ".cloud"

  predicate Contains(s: string, part: string) {
    |part| <= |s| && (part <= s || (s != "" && Contains(s[1..], part)))
  }

  function Replaced(s: string, part: string, text: string): string
    requires part != ""
  {
    if |s| < |part| then s
    else if part <= s then text + Replaced(s[|part|..], part, text)
    else [s[0]] + Replaced(s[1..], part, text)
  }

  /** `adapt_url_to_bot_version` */
  function Adapted(url: string, version: string): string {
    if Contains(url, VERSION_PLACEHOLDER) then Replaced(url, VERSION_PLACEHOLDER, version) else url
  }

  predicate IsCommunityUrl(url: string) {
    Contains(url, COMMUNITY_EXTENSIONS_PACKAGES_IDENTIFIER)
  }

  predicate NoCommonCharacter(a: string, b: string) {
    forall c :: c in a ==> c !in b
  }

  /** Put at a distance of d before it, the part agrees with the text wherever the two lie over each other. */
  predicate Agrees(text: string, part: string, d: int) {
    forall k | 0 <= k < |part| && 0 <= d + k < |text| :: text[d + k] == part[k]
  }

  /** The two can lie over each other, within or across an end, or the text is empty. */
  predicate Overlaps(text: string, part: string) {
    exists d | -|part| < d < |text| :: Agrees(text, part, d)
  }

  /** A version that cannot make a placeholder together with its surroundings, or is the placeholder. */
  predicate ProperVersion(version: string) {
    version == VERSION_PLACEHOLDER || !Overlaps(version, VERSION_PLACEHOLDER)
  }

  /** For example any version that shares no character with the placeholder. */
  lemma NothingSharedIsProper(version: string)
    requires version != "" && NoCommonCharacter(version, VERSION_PLACEHOLDER)
    ensures ProperVersion(version)
  {
    var p := VERSION_PLACEHOLDER;
    forall d | -|p| < d < |version|
      ensures !Agrees(version, p, d)
    {
      NothingSharedDisagrees(version, p, d);
    }
  }

  lemma NothingSharedDisagrees(text: string, part: string, d: int)
    requires text != "" && part != "" && -|part| < d < |text| && NoCommonCharacter(text, part)
    ensures !Agrees(text, part, d)
  {
    var k := if d < 0 then -d else 0;
    assert text[d + k] in text && part[k] in part;
  }

  lemma {:induction false} ContainsAfter(front: string, s: string, part: string)
    requires part != "" && forall i | 0 <= i < |front| :: !(part <= (front + s)[i..])
    ensures Contains(front + s, part) <==> Contains(s, part)
    decreases |front|
  {
    if front == "" {
      assert front + s == s;
    } else {
      assert (front + s)[1..] == front[1..] + s && (front + s)[0..] == front + s;
      forall i | 0 <= i < |front[1..]|
        ensures !(part <= (front[1..] + s)[i..])
      {
        assert (front[1..] + s)[i..] == (front + s)[i + 1..];
      }
      ContainsAfter(front[1..], s, part);
      if Contains(s, part) {
        ContainsIsShorter(s, part);
      }
    }
  }

  lemma ContainsIsShorter(s: string, part: string)
    requires Contains(s, part)
    ensures |part| <= |s|
  {
  }

  lemma OtherNeverStarts(front: string, s: string, part: string, i: nat)
    requires part != "" && i < |front| && NoCommonCharacter(front, part)
    ensures !(part <= (front + s)[i..])
  {
    assert (front + s)[i..][0] == front[i] && front[i] in front && part[0] in part;
  }

  lemma StartsWithin(text: string, s: string, part: string, i: nat)
    requires i < |text| && part <= (text + s)[i..]
    ensures Agrees(text, part, i)
  {
    forall k | 0 <= k < |part| && 0 <= i + k < |text|
      ensures text[i + k] == part[k]
    {
      assert (text + s)[i..][k] == text[i + k];
    }
  }

  lemma EndsWithin(text: string, s: string, part: string, j: nat)
    requires 0 < j < |part| && part[j..] <= text + s
    ensures Agrees(text, part, 0 - j)
  {
    forall k | 0 <= k < |part| && 0 <= k - j < |text|
      ensures text[k - j] == part[k]
    {
      assert (text + s)[k - j] == part[j..][k - j];
    }
  }

  /** The end of a part found at the start of what replacing left was there before. */
  lemma {:induction false} EndStays(s: string, part: string, text: string, j: nat)
    requires 0 < j <= |part| && !Overlaps(text, part)
    requires part[j..] <= Replaced(s, part, text)
    ensures part[j..] <= s
    decreases |s|
  {
    if j < |part| <= |s| {
      if part <= s {
        EndsWithin(text, Replaced(s[|part|..], part, text), part, j);
      } else {
        assert ([s[0]] + Replaced(s[1..], part, text))[1..] == Replaced(s[1..], part, text);
        assert part[j..] == [part[j]] + part[j + 1..] && s == [s[0]] + s[1..];
        EndStays(s[1..], part, text, j + 1);
      }
    }
  }

  /** Once replaced, no placeholder is left. */
  lemma {:induction false} NoneLeft(s: string, part: string, text: string)
    requires part != "" && !Overlaps(text, part)
    ensures !Contains(Replaced(s, part, text), part)
    decreases |s|
  {
    if |s| >= |part| {
      if part <= s {
        var rest := Replaced(s[|part|..], part, text);
        NoneLeft(s[|part|..], part, text);
        forall i | 0 <= i < |text|
          ensures !(part <= (text + rest)[i..])
        {
          if part <= (text + rest)[i..] {
            StartsWithin(text, rest, part, i);
          }
        }
        ContainsAfter(text, rest, part);
      } else {
        NoneLeft(s[1..], part, text);
        NotInFront(s, part, text);
        assert ([s[0]] + Replaced(s[1..], part, text))[1..] == Replaced(s[1..], part, text);
      }
    }
  }

  lemma NotInFront(s: string, part: string, text: string)
    requires part != "" && !Overlaps(text, part) && |s| >= |part| && !(part <= s)
    ensures !(part <= Replaced(s, part, text))
  {
    if part <= Replaced(s, part, text) {
      assert ([s[0]] + Replaced(s[1..], part, text))[1..] == Replaced(s[1..], part, text);
      assert part == [part[0]] + part[1..] && s == [s[0]] + s[1..];
      EndStays(s[1..], part, text, 1);
    }
  }

  lemma {:induction false} ReplacedBySelf(s: string, part: string)
    requires part != ""
    ensures Replaced(s, part, part) == s
    decreases |s|
  {
    if |s| >= |part| {
      if part <= s {
        ReplacedBySelf(s[|part|..], part);
        assert s == part + s[|part|..];
      } else {
        ReplacedBySelf(s[1..], part);
        assert s == [s[0]] + s[1..];
      }
    }
  }

  /** Adapting a url a second time changes nothing. */
  lemma AdaptedOnce(url: string, version: string)
    requires ProperVersion(version)
    ensures Adapted(Adapted(url, version), version) == Adapted(url, version)
  {
    if version == VERSION_PLACEHOLDER {
      ReplacedBySelf(url, VERSION_PLACEHOLDER);
    } else {
      NoneLeft(url, VERSION_PLACEHOLDER, version);
    }
  }

  lemma {:induction false} OtherPrefixStays(s: string, part: string, text: string, q: string)
    requires part != "" && NoCommonCharacter(q, part) && q <= s
    ensures q <= Replaced(s, part, text)
    decreases |q|
  {
    if q != "" && |s| >= |part| {
      assert q[0] in q && part[0] in part;
      assert forall c :: c in q[1..] ==> c in q;
      OtherPrefixStays(s[1..], part, text, q[1..]);
      assert q == [q[0]] + q[1..];
    }
  }

  lemma {:induction false} ContainsWithFront(front: string, s: string, part: string)
    requires Contains(s, part)
    ensures Contains(front + s, part)
    decreases |front|
  {
    if front == "" {
      assert front + s == s;
    } else {
      ContainsWithFront(front[1..], s, part);
      assert (front + s)[1..] == front[1..] + s;
      ContainsIsShorter(front[1..] + s, part);
    }
  }

  /** Text sharing no character with the placeholder survives its replacement. */
  lemma {:induction false} OtherTextStays(s: string, part: string, text: string, q: string)
    requires part != "" && q != "" && NoCommonCharacter(q, part) && Contains(s, q)
    ensures Contains(Replaced(s, part, text), q)
    decreases |s|
  {
    if |s| >= |part| {
      if part <= s {
        assert s == part + s[|part|..];
        forall i | 0 <= i < |part|
          ensures !(q <= (part + s[|part|..])[i..])
        {
          OtherNeverStarts(part, s[|part|..], q, i);
        }
        ContainsAfter(part, s[|part|..], q);
        OtherTextStays(s[|part|..], part, text, q);
        ContainsWithFront(text, Replaced(s[|part|..], part, text), q);
      } else if q <= s {
        OtherPrefixStays(s, part, text, q);
      } else {
        OtherTextStays(s[1..], part, text, q);
        ContainsWithFront([s[0]], Replaced(s[1..], part, text), q);
      }
    }
  }

  lemma AdaptedStaysCommunity(url: string, version: string)
    requires IsCommunityUrl(url)
    ensures IsCommunityUrl(Adapted(url, version))
  {
    IdentifierIsApart();
    OtherTextStays(url, VERSION_PLACEHOLDER, version, COMMUNITY_EXTENSIONS_PACKAGES_IDENTIFIER);
  }

  predicate IsUpper(c: char) {
    'A' <= c <= '_'
  }

  lemma PlaceholderIsUpper()
    ensures forall c :: c in VERSION_PLACEHOLDER ==> IsUpper(c)
  {
  }

  lemma IdentifierIsNotUpper()
    ensures forall c :: c in COMMUNITY_EXTENSIONS_PACKAGES_IDENTIFIER ==> !IsUpper(c)
  {
  }

  lemma IdentifierIsApart()
    ensures NoCommonCharacter(COMMUNITY_EXTENSIONS_PACKAGES_IDENTIFIER, VERSION_PLACEHOLDER)
  {
    PlaceholderIsUpper();
    IdentifierIsNotUpper();
  }

  // ---------- any other version fails for some url ----------

  lemma ReplacedOneOn(w: string, part: string, text: string)
    requires part != "" && |w| >= |part| && !(part <= w)
    ensures Replaced(w, part, text) == [w[0]] + Replaced(w[1..], part, text)
  {
  }

  lemma ReplacedInFront(part: string, rest: string, text: string)
    requires part != ""
    ensures Replaced(part + rest, part, text) == text + Replaced(rest, part, text)
  {
    assert (part + rest)[|part|..] == rest;
  }

  lemma {:induction false} ContainsAt(s: string, part: string, i: nat)
    requires i + |part| <= |s| && s[i..i + |part|] == part
    ensures Contains(s, part)
    decreases i
  {
    if i > 0 {
      assert s[1..][i - 1..i - 1 + |part|] == s[i..i + |part|];
      ContainsAt(s[1..], part, i - 1);
    }
  }

  /** Replacing changes the length by as much as text and part differ, in one direction. */
  lemma {:induction false} ReplacedLength(s: string, part: string, text: string)
    requires part != ""
    ensures |text| >= |part| ==> |Replaced(s, part, text)| >= |s|
    ensures |text| <= |part| ==> |Replaced(s, part, text)| <= |s|
    ensures |text| != |part| && Contains(s, part) ==> |Replaced(s, part, text)| != |s|
    decreases |s|
  {
    if |s| >= |part| {
      if part <= s {
        ReplacedLength(s[|part|..], part, text);
      } else {
        ReplacedLength(s[1..], part, text);
      }
    }
  }

  /** Replacing a part that occurs by another text changes the string. */
  lemma {:induction false} ReplacedDiffers(s: string, part: string, text: string)
    requires part != "" && text != part && Contains(s, part)
    ensures Replaced(s, part, text) != s
    decreases |s|
  {
    ReplacedLength(s, part, text);
    if |text| == |part| {
      if part <= s {
        assert Replaced(s, part, text)[..|part|] == text && s[..|part|] == part;
      } else {
        ReplacedDiffers(s[1..], part, text);
        assert Replaced(s, part, text)[1..] == Replaced(s[1..], part, text);
      }
    }
  }

  /** The first character of the part is not among its others, so it cannot overlap itself. */
  predicate StartsOnce(part: string) {
    part != "" && forall j | 0 < j < |part| :: part[j] != part[0]
  }

  lemma NotBefore(part: string, j: nat, a: nat, rest: string)
    requires StartsOnce(part) && j < a < |part|
    ensures !(part <= part[j..a] + (part + rest))
  {
    var w := part[j..a] + (part + rest);
    assert w[0] == part[j] && w[a - j] == part[0];
  }

  lemma ReplacedOneFurther(c: char, tail: string, w: string, part: string, text: string)
    requires part != "" && |w| >= |part| && !(part <= [c] + (tail + w))
    requires Replaced(tail + w, part, text) == tail + Replaced(w, part, text)
    ensures Replaced([c] + (tail + w), part, text) == [c] + (tail + Replaced(w, part, text))
  {
    var all := [c] + (tail + w);
    assert all[1..] == tail + w && all[0] == c;
    ReplacedOneOn(all, part, text);
  }

  /** The part starts nowhere within the front. */
  predicate StartsNowhere(part: string, front: string, w: string) {
    forall i | 0 <= i < |front| :: !(part <= front[i..] + w)
  }

  lemma StartsNowhereFurther(part: string, front: string, w: string)
    requires front != "" && StartsNowhere(part, front, w)
    ensures !(part <= front + w) && StartsNowhere(part, front[1..], w)
  {
    var tail := front[1..];
    assert front[0..] == front;
    forall i | 0 <= i < |tail|
      ensures !(part <= tail[i..] + w)
    {
      assert tail[i..] == front[i + 1..];
    }
  }

  lemma {:induction false} ReplacedSkips(front: string, w: string, part: string, text: string)
    requires part != "" && |w| >= |part| && StartsNowhere(part, front, w)
    ensures Replaced(front + w, part, text) == front + Replaced(w, part, text)
    decreases |front|
  {
    if front == "" {
      assert front + w == w;
    } else {
      var c, tail := front[0], front[1..];
      StartsNowhereFurther(part, front, w);
      ReplacedSkips(tail, w, part, text);
      assert front + w == [c] + (tail + w);
      ReplacedOneFurther(c, tail, w, part, text);
      assert front + Replaced(w, part, text) == [c] + (tail + Replaced(w, part, text));
    }
  }

  lemma {:induction false} ContainsSomewhere(s: string, part: string) returns (i: nat)
    requires Contains(s, part)
    ensures i + |part| <= |s| && s[i..i + |part|] == part
  {
    if part <= s {
      i := 0;
    } else {
      var j := ContainsSomewhere(s[1..], part);
      i := j + 1;
      assert s[i..i + |part|] == s[1..][j..j + |part|];
    }
  }

  predicate StandsAt(s: string, part: string, i: nat) {
    i + |part| <= |s| && s[i..i + |part|] == part
  }

  /** A string contains another if and only if that stands somewhere within it. */
  lemma ContainsExactly(s: string, part: string)
    ensures Contains(s, part) <==> exists i :: StandsAt(s, part, i)
  {
    if Contains(s, part) {
      var i := ContainsSomewhere(s, part);
      assert StandsAt(s, part, i);
    }
    if i :| StandsAt(s, part, i) {
      ContainsAt(s, part, i);
    }
  }

  /** Replacing leaves a string without the part alone; otherwise it keeps what is in front of the first
      occurrence, puts the text in its place and goes on behind it. */
  lemma {:induction false} ReplacedExactly(front: string, rest: string, part: string, text: string)
    requires part != ""
    ensures !Contains(rest, part) ==> Replaced(rest, part, text) == rest
    ensures StartsNowhere(part, front, part + rest) ==>
      Replaced(front + (part + rest), part, text) == front + (text + Replaced(rest, part, text))
  {
    NothingReplaced(rest, part, text);
    if StartsNowhere(part, front, part + rest) {
      ReplacedSkips(front, part + rest, part, text);
      ReplacedInFront(part, rest, text);
    }
  }

  lemma {:induction false} NothingReplaced(s: string, part: string, text: string)
    requires part != ""
    ensures !Contains(s, part) ==> Replaced(s, part, text) == s
    decreases |s|
  {
    if |s| >= |part| && !(part <= s) {
      NothingReplaced(s[1..], part, text);
      assert s == [s[0]] + s[1..];
    }
  }

  /** The placeholder between what it lacks, on both sides of a version that it agrees with. */
  function BreakingUrl(part: string, text: string, d: int): string
    requires -|part| < d < |text|
  {
    part[..Before(d)] + (part + part[After(part, text, d)..])
  }

  function Before(d: int): nat {
    if d < 0 then -d else 0
  }

  function After(part: string, text: string, d: int): nat
    requires d < |text|
  {
    if |text| - d < |part| then |text| - d else |part|
  }

  lemma {:induction false} BreakingUrlContains(part: string, text: string, d: int)
    requires -|part| < d < |text|
    ensures Contains(BreakingUrl(part, text, d), part)
  {
    var a, url := Before(d), BreakingUrl(part, text, d);
    assert url[a..a + |part|] == part;
    ContainsAt(url, part, a);
  }

  lemma {:induction false} BreakingUrlReplaced(part: string, text: string, d: int)
    requires StartsOnce(part) && -|part| < d < |text|
    ensures Replaced(BreakingUrl(part, text, d), part, text) ==
      part[..Before(d)] + (text + part[After(part, text, d)..])
  {
    var a, rest := Before(d), part[After(part, text, d)..];
    forall i | 0 <= i < a
      ensures !(part <= part[..a][i..] + (part + rest))
    {
      NotBefore(part, i, a, rest);
      assert part[..a][i..] == part[i..a];
    }
    ReplacedSkips(part[..a], part + rest, part, text);
    ReplacedInFront(part, rest, text);
  }

  lemma {:induction false} MadeAgain(part: string, text: string, d: int)
    requires -|part| < d < |text| && Agrees(text, part, d)
    ensures Contains(part[..Before(d)] + (text + part[After(part, text, d)..]), part)
  {
    var a, b := Before(d), After(part, text, d);
    var made := part[..a] + (text + part[b..]);
    var i := d + a;
    assert |made| == a + |text| + |part| - b;
    forall k | 0 <= k < |part|
      ensures made[i + k] == part[k]
    {
      if a <= i + k < a + |text| {
        assert made[i + k] == text[d + k];
      }
    }
    assert made[i..i + |part|] == part;
    ContainsAt(made, part, i);
  }

  lemma PlaceholderStartsOnce()
    ensures StartsOnce(VERSION_PLACEHOLDER)
  {
  }

  /** Adapting is idempotent for all urls if and only if the version is proper: for any other version the
      url made from an overlap is changed again. */
  lemma IdempotentExactly(version: string)
    ensures (forall url :: Adapted(Adapted(url, version), version) == Adapted(url, version)) <==> ProperVersion(version)
  {
    if ProperVersion(version) {
      forall url {
        AdaptedOnce(url, version);
      }
    } else {
      var d :| -|VERSION_PLACEHOLDER| < d < |version| && Agrees(version, VERSION_PLACEHOLDER, d);
      OverlapBreaks(version, d);
    }
  }

  lemma OverlapBreaks(version: string, d: int)
    requires version != VERSION_PLACEHOLDER
    requires -|VERSION_PLACEHOLDER| < d < |version| && Agrees(version, VERSION_PLACEHOLDER, d)
    ensures var url := BreakingUrl(VERSION_PLACEHOLDER, version, d);
      Adapted(Adapted(url, version), version) != Adapted(url, version)
  {
    PlaceholderStartsOnce();
    BreakingUrlContains(VERSION_PLACEHOLDER, version, d);
    BreakingUrlReplaced(VERSION_PLACEHOLDER, version, d);
    MadeAgain(VERSION_PLACEHOLDER, version, d);
    ReplacedDiffers(Adapted(BreakingUrl(VERSION_PLACEHOLDER, version, d), version), VERSION_PLACEHOLDER, version);
  }

  lemma EmptyAgrees(part: string, d: int)
    ensures Agrees("", part, d)
  {
  }

  /** The empty version is one of those, with the url VVERSION_PLACEHOLDERERSION_PLACEHOLDER. */
  lemma EmptyVersionIsNotEnough()
    ensures !ProperVersion("")
    ensures var url := VERSION_PLACEHOLDER[..1] + (VERSION_PLACEHOLDER + VERSION_PLACEHOLDER[1..]);
      Adapted(Adapted(url, ""), "") != Adapted(url, "")
  {
    EmptyAgrees(VERSION_PLACEHOLDER, -1);
    OverlapBreaks("", -1);
  }
}
