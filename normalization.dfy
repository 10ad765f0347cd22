/** `normalize_team_name` (models.py): the fixed pipeline that maps a raw team
    name to the canonical key under which Teams and Matches are stored.

        empty check; strip(); remove a trailing "-XX" state suffix;
        unidecode(); ' '.join(split()); alias table lookup

    Each step is its own function so that the lemmas below can say exactly
    which step is responsible for which property, in particular where
    `Normalize(Normalize(x)) == Normalize(x)` holds and where it does not. */
module Normalization {
  import opened Text

  // ---------------------------------------------------------------------------
  // Step 1: str.strip()
  // ---------------------------------------------------------------------------

  function StripLeading(s: string): (r: string)
    ensures |r| <= |s| && r == s[|s| - |r|..]
    ensures forall i :: 0 <= i < |s| - |r| ==> IsSpace(s[i])
    ensures r == [] || !IsSpace(r[0])
  {
    if s != [] && IsSpace(s[0]) then StripLeading(s[1..]) else s
  }

  function StripTrailing(s: string): (r: string)
    ensures |r| <= |s| && r == s[..|r|]
    ensures forall i :: |r| <= i < |s| ==> IsSpace(s[i])
    ensures r == [] || !IsSpace(r[|r| - 1])
  {
    if s != [] && IsSpace(s[|s| - 1]) then StripTrailing(s[..|s| - 1]) else s
  }

  /** `s.strip()`: `s` without its leading and trailing whitespace. */
  function Strip(s: string): (r: string)
    ensures r == [] || (!IsSpace(r[0]) && !IsSpace(r[|r| - 1]))
    ensures r == [] <==> forall i :: 0 <= i < |s| ==> IsSpace(s[i])
  {
    var t := StripLeading(s);
    assert t == [] ==> forall i :: 0 <= i < |s| ==> IsSpace(s[i]);
    StripTrailing(t)
  }

  // ---------------------------------------------------------------------------
  // Step 2: re.sub(r'-[A-Z]{2}$', '', s)
  // ---------------------------------------------------------------------------

  /** `s` ends in a hyphen and two ASCII capitals, the shape of "-SP", "-RJ". */
  predicate EndsWithStateSuffix(s: string) {
    |s| >= 3 && s[|s| - 3] == '-' && IsUpperAscii(s[|s| - 2]) && IsUpperAscii(s[|s| - 1])
  }

  /** The substitution removes at most one suffix: `$` matches only at the end,
      and after `strip()` there is no trailing newline for it to match before. */
  function RemoveStateSuffix(s: string): string {
    if EndsWithStateSuffix(s) then s[..|s| - 3] else s
  }

  // ---------------------------------------------------------------------------
  // Step 3: unidecode(s)
  // ---------------------------------------------------------------------------

  /** unidecode replaces every non-ASCII character by a string taken from its
      tables and keeps ASCII characters. The tables are not part of this model:
      they are this parameter. */
  type Transliteration = char -> string

  /** unidecode's replacements are pure ASCII (unknown characters become ""). */
  ghost predicate AsciiTransliteration(tr: Transliteration) {
    forall c :: IsAscii(tr(c))
  }

  function UnaccentChar(tr: Transliteration, c: char): string {
    if IsAsciiChar(c) then [c] else tr(c)
  }

  function Unaccent(tr: Transliteration, s: string): (r: string)
    ensures IsAscii(s) ==> r == s
    ensures AsciiTransliteration(tr) ==> IsAscii(r)
  {
    if s == [] then [] else UnaccentChar(tr, s[0]) + Unaccent(tr, s[1..])
  }

  // ---------------------------------------------------------------------------
  // Step 4: ' '.join(s.split())
  // ---------------------------------------------------------------------------

  /** An element of `str.split()`: a non-empty run without whitespace. */
  ghost predicate IsWord(w: string) {
    w != [] && forall i :: 0 <= i < |w| ==> !IsSpace(w[i])
  }

  /** Whitespace occurs only as single ' ' characters between two
      non-whitespace characters: no leading, trailing or repeated whitespace. */
  predicate WellSpaced(s: string) {
    && (forall i :: 0 <= i < |s| && IsSpace(s[i]) ==> s[i] == ' ' && 0 < i < |s| - 1)
    && (forall i, j :: 0 <= i < |s| && 0 <= j < |s| && j == i + 1 && IsSpace(s[i]) ==> !IsSpace(s[j]))
  }

  /** Printable ASCII without the blank: no character of it is whitespace. */
  ghost predicate Visible(s: string) {
    forall c :: c in s ==> '!' <= c <= '~'
  }

  lemma VisibleClean(s: string)
    requires Visible(s)
    ensures WellSpaced(s) && IsAscii(s)
  {
    assert forall i :: 0 <= i < |s| ==> s[i] in s;
  }

  /** Two well-spaced non-empty strings joined by one blank are well spaced. */
  lemma SpacedConcat(a: string, b: string)
    requires WellSpaced(a) && WellSpaced(b) && a != [] && b != []
    ensures WellSpaced(a + " " + b)
    ensures IsAscii(a) && IsAscii(b) ==> IsAscii(a + " " + b)
  {
    var s := a + " " + b;
    forall i | 0 <= i < |s| && IsSpace(s[i])
      ensures s[i] == ' ' && 0 < i < |s| - 1 && !IsSpace(s[i + 1])
    {
      if i < |a| {
        assert s[i] == a[i];
        if i + 1 < |a| {
          assert s[i + 1] == a[i + 1];
        }
      } else if i > |a| {
        assert s[i] == b[i - |a| - 1];
        if i + 1 < |s| {
          assert s[i + 1] == b[i - |a|];
        }
      } else {
        assert s[i + 1] == b[0];
      }
    }
    if IsAscii(a) && IsAscii(b) {
      forall i | 0 <= i < |s|
        ensures IsAsciiChar(s[i])
      {
        if i < |a| {
          assert s[i] == a[i];
        } else if i > |a| {
          assert s[i] == b[i - |a| - 1];
        }
      }
    }
  }

  /** Length of the leading run of non-whitespace characters. */
  function WordLength(s: string): (n: nat)
    ensures n <= |s|
    ensures forall i :: 0 <= i < n ==> !IsSpace(s[i])
    ensures n < |s| ==> IsSpace(s[n])
  {
    if s == [] || IsSpace(s[0]) then 0 else 1 + WordLength(s[1..])
  }

  /** `s.split()`: the maximal runs of non-whitespace characters, in order. */
  function Split(s: string): (ws: seq<string>)
    ensures forall k :: 0 <= k < |ws| ==> IsWord(ws[k])
    decreases |s|
  {
    var t := StripLeading(s);
    if t == [] then []
    else
      var n := WordLength(t);
      assert n > 0 && |t[n..]| < |s|;
      var rest := Split(t[n..]);
      LeadingWord(t, n);
      WordCons(t[..n], rest);
      [t[..n]] + rest
  }

  lemma LeadingWord(t: string, n: nat)
    requires t != [] && !IsSpace(t[0]) && n == WordLength(t)
    ensures IsWord(t[..n])
  {
  }

  lemma WordCons(w: string, ws: seq<string>)
    requires IsWord(w) && forall k :: 0 <= k < |ws| ==> IsWord(ws[k])
    ensures forall k :: 0 <= k < |[w] + ws| ==> IsWord(([w] + ws)[k])
  {
  }

  lemma SplitLeadingSpace(s: string)
    requires s != [] && IsSpace(s[0])
    ensures Split(s) == Split(s[1..])
  {
    assert StripLeading(s) == StripLeading(s[1..]);
  }

  lemma SplitWord(s: string)
    requires s != [] && !IsSpace(s[0])
    ensures Split(s) == [s[..WordLength(s)]] + Split(s[WordLength(s)..])
  {
    assert StripLeading(s) == s;
  }

  /** Every word of an ASCII string is ASCII. */
  lemma {:induction false} SplitAscii(s: string)
    requires IsAscii(s)
    ensures forall k :: 0 <= k < |Split(s)| ==> IsAscii(Split(s)[k])
    decreases |s|
  {
    var t := StripLeading(s);
    if t != [] {
      var n := WordLength(t);
      AsciiSlice(s, |s| - |t|, |s|);
      AsciiSlice(t, n, |t|);
      SplitAscii(t[n..]);
      AsciiSlice(t, 0, n);
      AsciiCons(t[..n], Split(t[n..]));
    }
  }

  lemma AsciiCons(w: string, ws: seq<string>)
    requires IsAscii(w) && forall k :: 0 <= k < |ws| ==> IsAscii(ws[k])
    ensures forall k :: 0 <= k < |[w] + ws| ==> IsAscii(([w] + ws)[k])
  {
  }

  /** `' '.join(ws)`. */
  function Join(ws: seq<string>): string {
    if |ws| == 0 then "" else if |ws| == 1 then ws[0] else ws[0] + " " + Join(ws[1..])
  }

  lemma {:induction false} JoinWellSpaced(ws: seq<string>)
    requires forall k :: 0 <= k < |ws| ==> IsWord(ws[k])
    ensures WellSpaced(Join(ws))
    ensures ws != [] ==> Join(ws) != [] && !IsSpace(Join(ws)[0])
  {
    if |ws| > 1 {
      JoinWellSpaced(ws[1..]);
      var w, j := ws[0], Join(ws[1..]);
      var s := w + " " + j;
      assert IsWord(w);
      forall i | 0 <= i < |s|
        ensures IsSpace(s[i]) ==> s[i] == ' ' && 0 < i < |s| - 1 && !IsSpace(s[i + 1])
      {
        if i > |w| {
          assert s[i] == j[i - |w| - 1];
          if i + 1 < |s| {
            assert s[i + 1] == j[i - |w|];
          }
        } else if i == |w| {
          assert s[i + 1] == j[0];
        } else {
          assert s[i] == w[i];
        }
      }
    }
  }

  lemma {:induction false} JoinAscii(ws: seq<string>)
    requires forall k :: 0 <= k < |ws| ==> IsAscii(ws[k])
    ensures IsAscii(Join(ws))
  {
    if |ws| > 1 {
      JoinAscii(ws[1..]);
    }
  }

  lemma JoinCons(w: string, ws: seq<string>)
    ensures Join([w] + ws) == if ws == [] then w else w + " " + Join(ws)
  {
    assert ([w] + ws)[1..] == ws;
  }

  /** Collapsing never lengthens: the result is no longer than `s` once its
      leading whitespace is gone. */
  lemma {:induction false} SplitJoinLength(s: string)
    ensures |Join(Split(s))| <= |StripLeading(s)|
    decreases |s|
  {
    var t := StripLeading(s);
    if t != [] {
      var n := WordLength(t);
      var rest := t[n..];
      var ws := Split(rest);
      assert Split(s) == [t[..n]] + ws;
      JoinCons(t[..n], ws);
      if ws != [] {
        assert rest != [] && IsSpace(rest[0]);
        SplitLeadingSpace(rest);
        SplitJoinLength(rest[1..]);
        assert |Join(ws)| <= |rest| - 1;
      }
    }
  }

  lemma WellSpacedSuffix(s: string, k: nat)
    requires WellSpaced(s) && k < |s| && !IsSpace(s[k])
    ensures WellSpaced(s[k..])
  {
    var t := s[k..];
    forall i | 0 <= i < |t| && IsSpace(t[i])
      ensures t[i] == ' ' && 0 < i < |t| - 1 && !IsSpace(t[i + 1])
    {
      assert t[i] == s[k + i];
      if i + 1 < |t| {
        assert t[i + 1] == s[k + i + 1];
      }
    }
  }

  /** In a well-spaced string the first word is followed by exactly one
      blank and then by the next word. */
  lemma WellSpacedFirstWord(s: string)
    requires WellSpaced(s) && s != []
    ensures !IsSpace(s[0])
    ensures WordLength(s) < |s| ==>
      s[WordLength(s)] == ' ' && WordLength(s) + 1 < |s| && !IsSpace(s[WordLength(s) + 1])
  {
  }

  /** `split()` on a word, a blank and a non-blank remainder. */
  lemma SplitAtBlank(s: string, n: nat)
    requires 0 < n < |s| - 1 && n == WordLength(s) && s[n] == ' ' && !IsSpace(s[n + 1])
    ensures Split(s) == [s[..n]] + Split(s[n + 1..])
    ensures Split(s[n + 1..]) != []
  {
    SplitWord(s);
    var rest := s[n..];
    assert rest[0] == s[n] && rest[1..] == s[n + 1..];
    SplitLeadingSpace(rest);
    SplitWord(s[n + 1..]);
  }

  lemma BlankSplit(s: string, n: nat)
    requires n < |s| && s[n] == ' '
    ensures s == s[..n] + " " + s[n + 1..]
  {
    var t := s[..n] + " " + s[n + 1..];
    assert |t| == |s|;
    forall i | 0 <= i < |s|
      ensures t[i] == s[i]
    {
      if i < n {
        assert t[i] == s[..n][i];
      } else if i > n {
        assert t[i] == s[n + 1..][i - n - 1];
      }
    }
  }

  lemma JoinAtBlank(s: string, n: nat, ws: seq<string>)
    requires n < |s| && s[n] == ' ' && ws != []
    requires Split(s) == [s[..n]] + ws && Join(ws) == s[n + 1..]
    ensures Join(Split(s)) == s
  {
    JoinCons(s[..n], ws);
    BlankSplit(s, n);
  }

  /** A well-spaced string is a fixed point of `' '.join(s.split())`. */
  lemma {:induction false} SplitJoinIdentity(s: string)
    requires WellSpaced(s)
    ensures Join(Split(s)) == s
    decreases |s|
  {
    if s != [] {
      WellSpacedFirstWord(s);
      var n := WordLength(s);
      if n < |s| {
        SplitAtBlank(s, n);
        WellSpacedSuffix(s, n + 1);
        SplitJoinIdentity(s[n + 1..]);
        JoinAtBlank(s, n, Split(s[n + 1..]));
      } else {
        SplitWord(s);
        JoinCons(s, Split([]));
      }
    }
  }

  lemma CollapseWellSpaced(s: string)
    ensures WellSpaced(Join(Split(s)))
  {
    JoinWellSpaced(Split(s));
  }

  lemma CollapseShorter(s: string)
    ensures |Join(Split(s))| <= |s|
  {
    SplitJoinLength(s);
  }

  lemma CollapseAscii(s: string)
    requires IsAscii(s)
    ensures IsAscii(Join(Split(s)))
  {
    SplitAscii(s);
    JoinAscii(Split(s));
  }

  /** `' '.join(s.split())` with the facts the normalizer relies on. */
  function CollapseSpaces(s: string): (r: string)
    ensures WellSpaced(r)
    ensures |r| <= |s|
    ensures IsAscii(s) ==> IsAscii(r)
    ensures WellSpaced(s) ==> r == s
  {
    CollapseWellSpaced(s);
    CollapseShorter(s);
    if WellSpaced(s) then SplitJoinIdentity(s); Join(Split(s))
    else if IsAscii(s) then CollapseAscii(s); Join(Split(s))
    else Join(Split(s))
  }

  // ---------------------------------------------------------------------------
  // Step 5: team_mappings.get(name, name)
  // ---------------------------------------------------------------------------

  const TeamMappings: map<string, string> := map[
    "Atletico Mineiro" := "Atletico-MG",
    "Atletico-MG" := "Atletico-MG",
    "Atletico MG" := "Atletico-MG",
    "Atletico Paranaense" := "Athletico-PR",
    "Athletico Paranaense" := "Athletico-PR",
    "Athletico-PR" := "Athletico-PR",
    "Atletico Goianiense" := "Atletico-GO",
    "Sport Club Corinthians Paulista" := "Corinthians",
    "Sociedade Esportiva Palmeiras" := "Palmeiras",
    "Sao Paulo FC" := "Sao Paulo",
    "Sao Paulo Futebol Clube" := "Sao Paulo"
  ]

  /** The values of the alias table. */
  const AliasTargets: set<string> :=
    {"Atletico-MG", "Athletico-PR", "Atletico-GO", "Corinthians", "Palmeiras", "Sao Paulo"}

  lemma AliasTargetsListed(k: string)
    requires k in TeamMappings
    ensures TeamMappings[k] in AliasTargets
  {
  }

  /** Every alias target is itself clean ASCII text. */
  lemma AliasTargetsClean(t: string)
    requires t in AliasTargets
    ensures WellSpaced(t) && IsAscii(t)
  {
    if t == "Sao Paulo" {
      assert t == "Sao" + " " + "Paulo";
      VisibleClean("Sao");
      VisibleClean("Paulo");
      SpacedConcat("Sao", "Paulo");
    } else {
      VisibleClean(t);
    }
  }

  /** No alias is longer than the name it replaces. */
  lemma AliasNeverLengthens(k: string)
    requires k in TeamMappings
    ensures |TeamMappings[k]| <= |k|
  {
  }

  /** `team_mappings.get(s, s)`: an alias replaces `s` by clean text that is
      no longer than `s`. */
  function ApplyAlias(s: string): (r: string)
    ensures WellSpaced(s) ==> WellSpaced(r)
    ensures IsAscii(s) ==> IsAscii(r)
    ensures |r| <= |s|
    ensures s !in TeamMappings ==> r == s
  {
    if s in TeamMappings then
      AliasTargetsListed(s);
      AliasTargetsClean(TeamMappings[s]);
      AliasNeverLengthens(s);
      TeamMappings[s]
    else s
  }

  /** The only alias targets that are also keys of the table are the two
      suffixed ones, and they map to themselves. */
  lemma AliasTargetsAsKeys(k: string)
    requires k in TeamMappings && TeamMappings[k] in TeamMappings
    ensures TeamMappings[TeamMappings[k]] == TeamMappings[k]
    ensures TeamMappings[k] == "Atletico-MG" || TeamMappings[k] == "Athletico-PR"
    ensures EndsWithStateSuffix(TeamMappings[k])
  {
  }

  // ---------------------------------------------------------------------------
  // The whole pipeline
  // ---------------------------------------------------------------------------

  /** Steps 1 to 4: the text that is looked up in the alias table. */
  function Cleaned(tr: Transliteration, name: string): (c: string)
    ensures WellSpaced(c)
    ensures AsciiTransliteration(tr) ==> IsAscii(c)
  {
    CollapseSpaces(Unaccent(tr, RemoveStateSuffix(Strip(name))))
  }

  /** `normalize_team_name(name)`. The result never has leading, trailing or
      repeated whitespace, whether or not an alias applied, and with an ASCII
      transliteration it is pure ASCII. */
  function Normalize(tr: Transliteration, name: string): (r: string)
    ensures name == [] ==> r == []
    ensures WellSpaced(r)
    ensures AsciiTransliteration(tr) ==> IsAscii(r)
  {
    if name == [] then [] else ApplyAlias(Cleaned(tr, name))
  }

  /** A team-name normalizer as a function value: the records, the loader
      and the queries receive `normalize_team_name` in this form. */
  type Normalizer = string -> string

  /** `normalize_team_name` for the transliteration table `tr`. */
  function NormalizerOf(tr: Transliteration): Normalizer {
    s => Normalize(tr, s)
  }

  /** `strip()` leaves a well-spaced string alone. */
  lemma WellSpacedStrip(s: string)
    requires WellSpaced(s)
    ensures Strip(s) == s
  {
    if s != [] {
      assert !IsSpace(s[0]) && !IsSpace(s[|s| - 1]);
      assert StripLeading(s) == s;
    }
  }

  /** On clean ASCII input the pipeline reduces to "remove the suffix, then
      look up the alias". */
  lemma NormalizeClean(tr: Transliteration, s: string)
    requires s != [] && IsAscii(s) && WellSpaced(s) && WellSpaced(RemoveStateSuffix(s))
    ensures Normalize(tr, s) == ApplyAlias(RemoveStateSuffix(s))
  {
    var t := RemoveStateSuffix(s);
    WellSpacedStrip(s);
    AsciiSlice(s, 0, |t|);
    assert s[0..|t|] == t;
    assert Unaccent(tr, t) == t;
    assert CollapseSpaces(t) == t;
    assert Cleaned(tr, s) == t;
  }

  /** On ASCII input the pipeline never lengthens the name once it is
      stripped and its suffix removed. */
  lemma NormalizeAsciiShorter(tr: Transliteration, s: string)
    requires s != [] && IsAscii(s)
    ensures |Normalize(tr, s)| <= |RemoveStateSuffix(Strip(s))|
  {
    var u := StripLeading(s);
    var t := Strip(s);
    AsciiSlice(s, |s| - |u|, |s|);
    AsciiSlice(u, 0, |t|);
    AsciiSlice(t, 0, |RemoveStateSuffix(t)|);
  }

  /** A normalized name that is itself an alias key ends in a state suffix:
      it is one of the two suffixed alias targets. */
  lemma NormalizedAliasKey(tr: Transliteration, x: string)
    requires Normalize(tr, x) in TeamMappings
    ensures EndsWithStateSuffix(Normalize(tr, x))
  {
    if x != [] {
      var c := Cleaned(tr, x);
      if c in TeamMappings {
        AliasTargetsAsKeys(c);
      }
    }
  }

  /** Normalizing a second time is the identity exactly when the first result
      does not end in "-XX". The suffix is stripped before the alias lookup, so
      an alias target such as "Atletico-MG" loses its suffix on the next pass. */
  lemma NormalizeIdempotentIff(tr: Transliteration, x: string)
    requires AsciiTransliteration(tr)
    ensures Normalize(tr, Normalize(tr, x)) == Normalize(tr, x)
        <==> !EndsWithStateSuffix(Normalize(tr, x))
  {
    var r := Normalize(tr, x);
    if r != [] {
      WellSpacedStrip(r);
      if EndsWithStateSuffix(r) {
        NormalizeAsciiShorter(tr, r);
      } else {
        NormalizeClean(tr, r);
        if r in TeamMappings {
          NormalizedAliasKey(tr, x);
        }
      }
    }
  }

  // ---------------------------------------------------------------------------
  // Worked examples (they hold for every transliteration table)
  // ---------------------------------------------------------------------------

  lemma NormalizeEmpty(tr: Transliteration)
    ensures Normalize(tr, "") == ""
  {
  }

  /** The alias-table entries the examples use. */
  lemma AliasFacts()
    ensures "Atletico Mineiro" in TeamMappings && TeamMappings["Atletico Mineiro"] == "Atletico-MG"
    ensures "Atletico-MG" in TeamMappings && TeamMappings["Atletico-MG"] == "Atletico-MG"
    ensures "Atletico" !in TeamMappings && "Palmeiras" !in TeamMappings
  {
  }

  /** The literals the examples use are printable text without blanks. */
  lemma LiteralsVisible()
    ensures Visible("Palmeiras-SP") && Visible("Palmeiras")
    ensures Visible("Atletico-MG-SP") && Visible("Atletico-MG") && Visible("Atletico") && Visible("Mineiro")
  {
  }

  /** A suffixed literal loses its last three characters. */
  lemma SuffixFacts()
    ensures RemoveStateSuffix("Palmeiras-SP") == "Palmeiras"
    ensures RemoveStateSuffix("Atletico-MG") == "Atletico"
    ensures RemoveStateSuffix("Atletico-MG-SP") == "Atletico-MG"
    ensures RemoveStateSuffix("Atletico Mineiro") == "Atletico Mineiro"
  {
  }

  /** "Atletico Mineiro" is clean ASCII text. */
  lemma MineiroClean()
    ensures WellSpaced("Atletico Mineiro") && IsAscii("Atletico Mineiro")
  {
    assert "Atletico Mineiro" == "Atletico" + " " + "Mineiro";
    LiteralsVisible();
    VisibleClean("Atletico");
    VisibleClean("Mineiro");
    SpacedConcat("Atletico", "Mineiro");
  }

  /** A state suffix is removed. */
  lemma SuffixExample(tr: Transliteration)
    ensures Normalize(tr, "Palmeiras-SP") == "Palmeiras"
  {
    LiteralsVisible();
    AliasFacts();
    SuffixFacts();
    VisibleClean("Palmeiras-SP");
    VisibleClean("Palmeiras");
    NormalizeClean(tr, "Palmeiras-SP");
  }

  /** A full name is mapped by the alias table. */
  lemma AliasExample(tr: Transliteration)
    ensures Normalize(tr, "Atletico Mineiro") == "Atletico-MG"
  {
    LiteralsVisible();
    AliasFacts();
    SuffixFacts();
    MineiroClean();
    NormalizeClean(tr, "Atletico Mineiro");
  }

  /** The suffix goes before the alias lookup, so the alias key
      "Atletico-MG" itself is reduced to "Atletico". */
  lemma AliasKeySuffixExample(tr: Transliteration)
    ensures Normalize(tr, "Atletico-MG") == "Atletico"
  {
    LiteralsVisible();
    AliasFacts();
    SuffixFacts();
    VisibleClean("Atletico-MG");
    VisibleClean("Atletico");
    NormalizeClean(tr, "Atletico-MG");
  }

  /** The suffixed alias keys are reached through a second suffix. */
  lemma DoubleSuffixExample(tr: Transliteration)
    ensures Normalize(tr, "Atletico-MG-SP") == "Atletico-MG"
  {
    LiteralsVisible();
    AliasFacts();
    SuffixFacts();
    VisibleClean("Atletico-MG-SP");
    VisibleClean("Atletico-MG");
    NormalizeClean(tr, "Atletico-MG-SP");
  }

  /** The counterexample to idempotence. */
  lemma NotIdempotentExample(tr: Transliteration)
    ensures Normalize(tr, Normalize(tr, "Atletico Mineiro")) == "Atletico"
    ensures Normalize(tr, "Atletico Mineiro") != Normalize(tr, Normalize(tr, "Atletico Mineiro"))
  {
    AliasExample(tr);
    AliasKeySuffixExample(tr);
  }
}
