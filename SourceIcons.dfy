/**
 * Icon selection for a job source: the display name is normalised
 * (lower-cased, everything outside a-z, 0-9 and the Hebrew block dropped)
 * and looked up in a fixed table, with a generic link icon as fallback.
 */
module SourceIcons {
  import JsObject

  /** `toLowerCase` on one character, for ASCII and the Hebrew block (which has no case). */
  function Lower(c: char): (r: char)
    ensures 'A' <= c <= 'Z' ==> r as int == c as int + 32
    ensures !('A' <= c <= 'Z') ==> r == c
  {
    if 'A' <= c <= 'Z' then (c as int + 32) as char else c
  }

  /** The characters the pattern `[^a-z0-9֐-׿]+` does not remove. */
  predicate Kept(c: char)
  {
    ('a' <= c <= 'z') || ('0' <= c <= '9') || ('֐' <= c <= '׿')
  }

  /** `toLowerCase` on a whole string. */
  function LowerAll(s: string): (r: string)
    ensures |r| == |s|
    ensures forall i :: 0 <= i < |s| ==> r[i] == Lower(s[i])
  {
    seq(|s|, i requires 0 <= i < |s| => Lower(s[i]))
  }

  /** `normalizeName`: lower-case, then drop every character that is not kept. */
  function NormalizeName(name: string): (r: string)
    ensures |r| <= |name|
    ensures forall i :: 0 <= i < |r| ==> Kept(r[i])
  {
    if name == [] then []
    else (if Kept(Lower(name[0])) then [Lower(name[0])] else []) + NormalizeName(name[1..])
  }

  // ---------------------------------------------------------------------------
  // Properties of the normalisation

  /** Normalising works character by character: it distributes over concatenation. */
  lemma {:induction false} NormalizeConcat(a: string, b: string)
    ensures NormalizeName(a + b) == NormalizeName(a) + NormalizeName(b)
  {
    if a == [] {
      assert a + b == b;
    } else {
      assert (a + b)[1..] == a[1..] + b;
      NormalizeConcat(a[1..], b);
    }
  }

  /** One character becomes its lower-case form if that is kept, and nothing otherwise. */
  lemma NormalizeChar(c: char)
    ensures NormalizeName([c]) == if Kept(Lower(c)) then [Lower(c)] else []
  {
  }

  /** A character that is dropped (a space, punctuation) can be inserted anywhere without effect. */
  lemma IgnoresDropped(a: string, c: char, b: string)
    requires !Kept(Lower(c))
    ensures NormalizeName(a + [c] + b) == NormalizeName(a + b)
  {
    NormalizeConcat(a + [c], b);
    NormalizeConcat(a, [c]);
    NormalizeConcat(a, b);
  }

  /** Case is ignored: names that lower-case to the same string normalise to the same key. */
  lemma {:induction false} IgnoresCase(a: string, b: string)
    requires LowerAll(a) == LowerAll(b)
    ensures NormalizeName(a) == NormalizeName(b)
  {
    if a != [] {
      assert Lower(a[0]) == LowerAll(a)[0] == LowerAll(b)[0] == Lower(b[0]);
      assert LowerAll(a[1..]) == LowerAll(a)[1..];
      assert LowerAll(b[1..]) == LowerAll(b)[1..];
      IgnoresCase(a[1..], b[1..]);
    }
  }

  /** A kept character is already lower-case. */
  lemma KeptIsLower(c: char)
    requires Kept(c)
    ensures Lower(c) == c
  {
  }

  /** Normalising a key changes nothing: the normalisation is idempotent. */
  lemma {:induction false} NormalizeFixesKeys(s: string)
    requires forall i :: 0 <= i < |s| ==> Kept(s[i])
    ensures NormalizeName(s) == s
  {
    if s != [] {
      KeptIsLower(s[0]);
      NormalizeFixesKeys(s[1..]);
    }
  }

  lemma NormalizeIdempotent(name: string)
    ensures NormalizeName(NormalizeName(name)) == NormalizeName(name)
  {
    NormalizeFixesKeys(NormalizeName(name));
  }

  /** Every kept character is the lower-case form of an input character, in input order. */
  lemma {:induction false} NormalizeIsSubsequence(name: string)
    ensures IsSubsequence(NormalizeName(name), LowerAll(name))
  {
    if name != [] {
      NormalizeIsSubsequence(name[1..]);
      var r, l := NormalizeName(name), LowerAll(name);
      assert l[0] == Lower(name[0]) && l[1..] == LowerAll(name[1..]);
      if Kept(Lower(name[0])) {
        assert r[0] == l[0] && r[1..] == NormalizeName(name[1..]);
      } else {
        assert r == NormalizeName(name[1..]);
      }
    }
  }

  /** `r` is obtained from `s` by deleting characters. */
  predicate IsSubsequence(r: string, s: string)
  {
    r == [] || (s != [] && ((r[0] == s[0] && IsSubsequence(r[1..], s[1..])) || IsSubsequence(r, s[1..])))
  }

  // ---------------------------------------------------------------------------
  // Icon lookup

  /** The lucide icons the table refers to. */
  datatype Icon =
    | ExternalLink | Linkedin | Search | Briefcase | BadgeCheck | Link2 | Cpu | Shield
    | Plane | Rocket | MonitorUp | Factory | Stethoscope | Wrench | Building2 | Users | Hammer

  /** `sourceIconMap`, keyed by normalised name. */
  const SourceIconMap: map<string, Icon> := map[
    "linkedin" := Linkedin,
    "glassdoor" := Search,
    "alljobs" := Briefcase,
    "jobmaster" := BadgeCheck,
    "drushim" := Search,
    "sqlink" := Link2,
    "intelisrael" := Cpu,
    "elbitsystems" := Shield,
    "iaiאלתא" := Plane,
    "רפאלrafael" := Rocket,
    "hpcareers" := MonitorUp,
    "appliedmaterials" := Factory,
    "artmedical" := Stethoscope,
    "aradtechnologies" := Wrench,
    "nesstechnologies" := Building2,
    "amarel" := Users,
    "tattechnologies" := Hammer,
    "tat" := Hammer
  ]

  /** What `sourceIconMap[normalized] || ExternalLink` evaluates to. */
  datatype IconValue = IconOf(icon: Icon) | InheritedMember(key: string)

  /**
   * `getSourceIcon` as written: the table is a plain object literal, so a
   * name that normalises to a member of `Object.prototype` reads that
   * (truthy) member and never reaches the fallback.
   */
  function GetSourceIconAsWritten(name: string): (r: IconValue)
    ensures NormalizeName(name) in SourceIconMap ==> r == IconOf(SourceIconMap[NormalizeName(name)])
    ensures NormalizeName(name) !in SourceIconMap && NormalizeName(name) in JsObject.PrototypeKeys ==>
      r == InheritedMember(NormalizeName(name))
    ensures NormalizeName(name) !in SourceIconMap && NormalizeName(name) !in JsObject.PrototypeKeys ==>
      r == IconOf(ExternalLink)
  {
    match JsObject.Get(SourceIconMap, NormalizeName(name))
    case Own(icon) => IconOf(icon)
    case Inherited(k) => InheritedMember(k)
    case Undefined => IconOf(ExternalLink)
  }

  lemma ConstructorWord()
    ensures NormalizeName("Constructor") == LowerAll("Constructor")
  {
    NormalizeWord("Constructor");
  }

  lemma LowerConstructor()
    ensures LowerAll("Constructor") == "constructor"
  {
  }

  lemma NormalizeConstructor()
    ensures NormalizeName("Constructor") == "constructor"
  {
    ConstructorWord();
    LowerConstructor();
  }

  /** Any name normalising to `constructor` reads the inherited member. */
  lemma ConstructorKey(name: string)
    requires NormalizeName(name) == "constructor"
    ensures GetSourceIconAsWritten(name) == InheritedMember("constructor")
  {
    assert "constructor" !in SourceIconMap;
    JsObject.ConstructorIsInherited();
  }

  /** A source named "Constructor" gets `Object` instead of an icon. */
  lemma ConstructorEscapesFallback()
    ensures GetSourceIconAsWritten("Constructor") == InheritedMember("constructor")
  {
    NormalizeConstructor();
    ConstructorKey("Constructor");
  }

  /** `getSourceIcon` as intended: the table's icon for the normalised name, else ExternalLink. */
  function GetSourceIcon(name: string): (r: Icon)
    ensures NormalizeName(name) in SourceIconMap ==> r == SourceIconMap[NormalizeName(name)]
    ensures NormalizeName(name) !in SourceIconMap ==> r == ExternalLink
  {
    var normalized := NormalizeName(name);
    if normalized in SourceIconMap then SourceIconMap[normalized] else ExternalLink
  }

  /** The two agree on every name that does not normalise to an `Object.prototype` member. */
  lemma GetSourceIconAgrees(name: string)
    requires NormalizeName(name) !in JsObject.PrototypeKeys
    ensures GetSourceIconAsWritten(name) == IconOf(GetSourceIcon(name))
  {
  }

  /** Names differing only in case, spacing or punctuation get the same icon. */
  lemma SameKeySameIcon(a: string, b: string)
    requires NormalizeName(a) == NormalizeName(b)
    ensures GetSourceIcon(a) == GetSourceIcon(b)
  {
  }

  // ---------------------------------------------------------------------------
  // Examples from the shipped list

  /** A word whose characters are all kept once lower-cased normalises to its lower-case form. */
  lemma {:induction false} NormalizeWord(w: string)
    requires forall i :: 0 <= i < |w| ==> Kept(Lower(w[i]))
    ensures NormalizeName(w) == LowerAll(w)
  {
    if w != [] {
      NormalizeWord(w[1..]);
      assert LowerAll(w) == [Lower(w[0])] + LowerAll(w[1..]);
    }
  }

  /** Two such words separated by one dropped character. */
  lemma NormalizeTwoWords(a: string, c: char, b: string)
    requires forall i :: 0 <= i < |a + b| ==> Kept(Lower((a + b)[i]))
    requires !Kept(Lower(c))
    ensures NormalizeName(a + [c] + b) == LowerAll(a + b)
  {
    IgnoresDropped(a, c, b);
    NormalizeWord(a + b);
  }

  lemma IntelWords()
    ensures NormalizeName("Intel Israel") == LowerAll("Intel" + "Israel")
  {
    assert "Intel Israel" == "Intel" + [' '] + "Israel";
    NormalizeTwoWords("Intel", ' ', "Israel");
  }

  lemma LowerIntel()
    ensures LowerAll("Intel" + "Israel") == "intelisrael"
  {
  }

  /** A name normalising to `intelisrael` gets the Cpu icon. */
  lemma IntelKey(name: string)
    requires NormalizeName(name) == "intelisrael"
    ensures GetSourceIcon(name) == Cpu
  {
    assert SourceIconMap["intelisrael"] == Cpu;
  }

  lemma IntelIsrael()
    ensures NormalizeName("Intel Israel") == "intelisrael"
    ensures GetSourceIcon("Intel Israel") == Cpu
  {
    IntelWords();
    LowerIntel();
    IntelKey("Intel Israel");
  }

  lemma IaiWords()
    ensures NormalizeName("IAI" + [' '] + "(" + "אלתא)") == NormalizeName("IAI" + "אלתא" + [')'] + "")
  {
    IgnoresDropped("IAI", ' ', "(" + "אלתא)");
    assert "IAI" + [' '] + "(" + "אלתא)" == "IAI" + [' '] + ("(" + "אלתא)");
    assert "IAI" + ("(" + "אלתא)") == "IAI" + ['('] + "אלתא)";
    IgnoresDropped("IAI", '(', "אלתא)");
    assert "IAI" + "אלתא)" == "IAI" + "אלתא" + [')'] + "";
  }

  lemma IaiWord()
    ensures NormalizeName("IAI" + "אלתא" + [')'] + "") == LowerAll("IAI" + "אלתא" + "")
  {
    NormalizeTwoWords("IAI" + "אלתא", ')', "");
  }

  lemma LowerIai()
    ensures LowerAll("IAI" + "אלתא" + "") == "iaiאלתא"
  {
  }

  lemma NormalizeIai()
    ensures NormalizeName("IAI (אלתא)") == "iaiאלתא"
  {
    IaiWords();
    IaiWord();
    LowerIai();
    assert "IAI (אלתא)" == "IAI" + [' '] + "(" + "אלתא)";
  }

  /** A name normalising to `iaiאלתא` gets the Plane icon. */
  lemma IaiKey(name: string)
    requires NormalizeName(name) == "iaiאלתא"
    ensures GetSourceIcon(name) == Plane
  {
    assert SourceIconMap["iaiאלתא"] == Plane;
  }

  lemma IaiHebrew()
    ensures NormalizeName("IAI (אלתא)") == "iaiאלתא"
    ensures GetSourceIcon("IAI (אלתא)") == Plane
  {
    NormalizeIai();
    IaiKey("IAI (אלתא)");
  }

  lemma NormalizeTat()
    ensures NormalizeName("TAT") == "tat"
  {
    NormalizeWord("TAT");
    assert LowerAll("TAT") == "tat";
  }

  lemma TatWords()
    ensures NormalizeName("TAT Technologies") == LowerAll("TAT" + "Technologies")
  {
    assert "TAT Technologies" == "TAT" + [' '] + "Technologies";
    NormalizeTwoWords("TAT", ' ', "Technologies");
  }

  lemma LowerTat()
    ensures LowerAll("TAT" + "Technologies") == "tattechnologies"
  {
  }

  /** Both `tat` and `tattechnologies` are keys for the Hammer icon. */
  lemma TatKeys(a: string, b: string)
    requires NormalizeName(a) == "tat" && NormalizeName(b) == "tattechnologies"
    ensures GetSourceIcon(a) == GetSourceIcon(b) == Hammer
  {
    assert SourceIconMap["tat"] == Hammer;
    assert SourceIconMap["tattechnologies"] == Hammer;
  }

  lemma TatAliases()
    ensures GetSourceIcon("TAT") == GetSourceIcon("TAT Technologies") == Hammer
  {
    NormalizeTat();
    TatWords();
    LowerTat();
    TatKeys("TAT", "TAT Technologies");
  }

  lemma OrbitWords()
    ensures NormalizeName("Orbit Technologies") == LowerAll("Orbit" + "Technologies")
  {
    assert "Orbit Technologies" == "Orbit" + [' '] + "Technologies";
    NormalizeTwoWords("Orbit", ' ', "Technologies");
  }

  lemma LowerOrbit()
    ensures LowerAll("Orbit" + "Technologies") == "orbittechnologies"
  {
  }

  lemma NormalizeOrbit()
    ensures NormalizeName("Orbit Technologies") == "orbittechnologies"
  {
    OrbitWords();
    LowerOrbit();
  }

  lemma OrbitKeyUnknown(name: string)
    requires NormalizeName(name) == "orbittechnologies"
    ensures GetSourceIcon(name) == ExternalLink
  {
    assert "orbittechnologies" !in SourceIconMap;
  }

  /** "Orbit Technologies" has no table entry and falls back to the generic icon. */
  lemma OrbitFallsBack()
    ensures GetSourceIcon("Orbit Technologies") == ExternalLink
  {
    NormalizeOrbit();
    OrbitKeyUnknown("Orbit Technologies");
  }
}
