/**
 * The Monocle training page: modules are grouped into sections by the
 * number in their level text, and a module is locked while the user's
 * level is below that number.
 */
module TrainingPage {
  import opened Wrappers
  import opened Decimal
  import opened Modules

  /** `s.replace(/\D/g, '')`: the ASCII digits of `s`, in order. */
  function Digits(s: string): (r: string)
    ensures AllDigits(r) && |r| <= |s|
  {
    if |s| == 0 then []
    else (if IsDigit(s[0]) then [s[0]] else []) + Digits(s[1..])
  }

  /** The digits kept are exactly the digits of the text. */
  lemma {:induction false} DigitsMembers(s: string)
    ensures forall c :: c in Digits(s) <==> c in s && IsDigit(c)
    decreases |s|
  {
    if |s| > 0 {
      DigitsMembers(s[1..]);
      assert forall c :: c in s <==> c == s[0] || c in s[1..];
    }
  }

  /** `parseInt` of the digits: `None` stands for `NaN`, when the text has no digit. */
  function ParseLevel(text: string): (r: Option<nat>)
    ensures r.None? <==> forall i :: 0 <= i < |text| ==> !IsDigit(text[i])
  {
    var ds := Digits(text);
    DigitsMembers(text);
    if |ds| == 0 then
      assert forall i :: 0 <= i < |text| ==> !IsDigit(text[i]) by {
        forall i | 0 <= i < |text| ensures !IsDigit(text[i]) {
          assert text[i] in text;
        }
      }
      None
    else
      assert ds[0] in ds;
      Some(ParseDigits(ds))
  }

  /** Digits printed after a prefix without digits are read back: "Level " + n parses to n. */
  lemma ParseLevelOfLabel(prefix: string, n: nat, suffix: string)
    requires forall i :: 0 <= i < |prefix| ==> !IsDigit(prefix[i])
    requires forall i :: 0 <= i < |suffix| ==> !IsDigit(suffix[i])
    ensures ParseLevel(prefix + ToDecimal(n) + suffix) == Some(n)
  {
    var d := ToDecimal(n);
    DigitsOfConcat(prefix, d);
    DigitsOfConcat(prefix + d, suffix);
    DigitsNone(prefix);
    DigitsNone(suffix);
    DigitsAll(d);
    assert Digits(prefix + d) == [] + d == d;
    assert Digits(prefix + d + suffix) == d + [] == d;
    ParsePrinted(n);
  }

  lemma {:induction false} DigitsOfConcat(a: string, b: string)
    ensures Digits(a + b) == Digits(a) + Digits(b)
    decreases |a|
  {
    if |a| > 0 {
      assert (a + b)[0] == a[0];
      assert (a + b)[1..] == a[1..] + b;
      DigitsOfConcat(a[1..], b);
    } else {
      assert a + b == b;
    }
  }

  lemma {:induction false} DigitsNone(s: string)
    requires forall i :: 0 <= i < |s| ==> !IsDigit(s[i])
    ensures Digits(s) == []
    decreases |s|
  {
    if |s| > 0 {
      DigitsNone(s[1..]);
    }
  }

  lemma {:induction false} DigitsAll(s: string)
    requires AllDigits(s)
    ensures Digits(s) == s
    decreases |s|
  {
    if |s| > 0 {
      DigitsAll(s[1..]);
    }
  }

  /** The text's number lies in `[lo, hi]`; `NaN` lies in no band. */
  predicate InBand(text: string, lo: int, hi: int) {
    var l := ParseLevel(text);
    l.Some? && lo <= l.value <= hi
  }

  /** `getModulesByLevel(lo, hi)`: the modules whose number lies in the band, in catalog order. */
  function ModulesByLevel(mods: seq<ModuleData>, lo: int, hi: int): (r: seq<ModuleData>)
    ensures forall m :: m in r <==> m in mods && InBand(m.level, lo, hi)
    ensures |r| <= |mods|
  {
    if |mods| == 0 then []
    else (if InBand(mods[0].level, lo, hi) then [mods[0]] else []) + ModulesByLevel(mods[1..], lo, hi)
  }

  /** `userLevel < reqLevel`; a text without digits never locks. */
  predicate IsLocked(userLevel: int, m: ModuleData) {
    var req := ParseLevel(m.level);
    req.Some? && userLevel < req.value
  }

  /** Raising the user's level never locks a module again. */
  lemma UnlockIsMonotone(lo: int, hi: int, m: ModuleData)
    requires lo <= hi
    ensures IsLocked(hi, m) ==> IsLocked(lo, m)
  {
  }

  /** "Level " followed by a number and an optional "+" parses to that number. */
  lemma LevelLabel(n: nat, plus: bool)
    ensures ParseLevel("Level " + ToDecimal(n) + (if plus then "+" else "")) == Some(n)
  {
    var prefix, suffix := "Level ", if plus then "+" else "";
    assert forall i :: 0 <= i < |prefix| ==> !IsDigit(prefix[i]);
    assert forall i :: 0 <= i < |suffix| ==> !IsDigit(suffix[i]);
    ParseLevelOfLabel(prefix, n, suffix);
  }

  /** The numbers the five level labels of the catalog parse to. */
  lemma CatalogLabel(text: string)
    requires text in {"Level 1", "Level 2", "Level 2+", "Level 3", "Level 4"}
    ensures ParseLevel(text).Some?
    ensures ParseLevel(text).value == if text == "Level 2+" then 2 else text[6] as int - '0' as int
  {
    var n := if text == "Level 2+" then 2 else text[6] as int - '0' as int;
    assert ToDecimal(n) == [DigitChar(n)];
    LevelLabel(n, text == "Level 2+");
    assert "Level " + ToDecimal(n) + (if text == "Level 2+" then "+" else "") == text;
  }

  /** Every catalog module has one of those five labels. */
  lemma ModuleLabels(i: nat)
    requires i < |MODULES|
    ensures MODULES[i].level in {"Level 1", "Level 2", "Level 2+", "Level 3", "Level 4"}
  {
  }

  /** Every catalog module parses to a level from 1 to 4. */
  lemma ModuleLevelRange(m: ModuleData)
    requires m in MODULES
    ensures ParseLevel(m.level).Some? && 1 <= ParseLevel(m.level).value <= 4
  {
    var i :| 0 <= i < |MODULES| && MODULES[i] == m;
    ModuleLabels(i);
    CatalogLabel(m.level);
  }

  /** How many of the page's four sections (levels 1, 2, 3 and 4-5) of `mods` show `m`. */
  function SectionCount(mods: seq<ModuleData>, m: ModuleData): nat {
    (if m in ModulesByLevel(mods, 1, 1) then 1 else 0) + (if m in ModulesByLevel(mods, 2, 2) then 1 else 0) +
    (if m in ModulesByLevel(mods, 3, 3) then 1 else 0) + (if m in ModulesByLevel(mods, 4, 5) then 1 else 0)
  }

  /** A module whose label parses to 1-5 is in exactly one section; one without digits is in none. */
  lemma SectionsPartition(mods: seq<ModuleData>, m: ModuleData)
    requires m in mods
    ensures ParseLevel(m.level).Some? && 1 <= ParseLevel(m.level).value <= 5 ==> SectionCount(mods, m) == 1
    ensures ParseLevel(m.level).None? ==> SectionCount(mods, m) == 0
  {
  }

  /** The four sections show every catalog module exactly once: "Level 2+" falls in the level-2 section. */
  lemma SectionsPartitionCatalog(m: ModuleData)
    requires m in MODULES
    ensures SectionCount(MODULES, m) == 1
  {
    ModuleLevelRange(m);
    SectionsPartition(MODULES, m);
  }

  /** At level 4 nothing in the catalog is locked; at level 1 exactly the modules above level 1 are. */
  lemma LockingByUserLevel(m: ModuleData)
    requires m in MODULES
    ensures !IsLocked(4, m)
    ensures IsLocked(1, m) <==> !InBand(m.level, 1, 1)
  {
    ModuleLevelRange(m);
  }
}
