/** Team-name canonicalisation and the opponent lookup that compares names through it. */
module Teams {
  import opened GoStrings
  import opened Models

  predicate IsUpperAlnum(c: char) { IsUpperLetter(c) || IsDigit(c) }

  /** The name upper-cased with everything outside A-Z and 0-9 removed. */
  function Compress(name: string): string {
    Filter(Upper(name), IsUpperAlnum)
  }

  /** The Bridge Inn rules, then the Sir James Pub rules, on the upper-cased name; the first that
      holds gives the canonical name. */
  function VenueRule(upper: string): Option<string> {
    if Contains(upper, "BRIDGE INN 1") || (Contains(upper, "BRIDGE INN") && Contains(upper, "1")) then
      Some("BRIDGE INN 1")
    else if Contains(upper, "BRIDGE INN 2") || (Contains(upper, "BRIDGE INN") && Contains(upper, "2")) then
      Some("BRIDGE INN 2")
    else if Contains(upper, "SIR JAMES PUB 1") ||
      (Contains(upper, "SIR JAMES PUB") && Contains(upper, "1") && !Contains(upper, "DOS")) then
      Some("SIR JAMES PUB 1")
    else if Contains(upper, "SIR JAMES PUB 2") ||
      (Contains(upper, "SIR JAMES PUB") && (Contains(upper, "2") || Contains(upper, "DOS")) &&
       !Contains(upper, "3")) then
      Some("SIR JAMES PUB 2")
    else if Contains(upper, "SIR JAMES PUB 3") || (Contains(upper, "SIR JAMES PUB") && Contains(upper, "3")) then
      Some("SIR JAMES PUB 3")
    else None
  }

  /** The canonical names of every entry of the alias map whose key occurs in the compressed name:
      the results the map lookup can give when Go walks the map in some order. */
  function AliasValues(compressed: string): set<string> {
    (if Contains(compressed, "THEHUTCH") then {"THE HUTCH"} else {}) +
    (if Contains(compressed, "HARBORHILLSTOO") then {"HARBOR HILLS TOO"} else {}) +
    (if Contains(compressed, "HARBORHILLS2") then {"HARBOR HILLS TOO"} else {}) +
    (if Contains(compressed, "HARBORHILLSTWO") then {"HARBOR HILLS TOO"} else {}) +
    (if Contains(compressed, "HILLSHASEYES") then {"HILLS HAS EYES"} else {}) +
    (if Contains(compressed, "EYESOFTHEHILL") then {"HILLS HAS EYES"} else {}) +
    (if Contains(compressed, "SIRJAMESPUBDOS") then {"SIR JAMES PUB 2"} else {}) +
    (if Contains(compressed, "SIRJAMESPUB") then {"SIR JAMES PUB"} else {}) +
    (if Contains(compressed, "SPEARSNBEERS") then {"SPEARS N BEERS"} else {})
  }

  /** The alias map walked in the order the source lists it: the first key that occurs in the
      compressed name gives the canonical name.  It answers exactly when some walk order does, and
      with one of the answers a walk can give. */
  function AliasLookup(compressed: string): (r: Option<string>)
    ensures r.Some? <==> AliasValues(compressed) != {}
    ensures r.Some? ==> r.value in AliasValues(compressed)
  {
    if Contains(compressed, "THEHUTCH") then Some("THE HUTCH")
    else if Contains(compressed, "HARBORHILLSTOO") then Some("HARBOR HILLS TOO")
    else if Contains(compressed, "HARBORHILLS2") then Some("HARBOR HILLS TOO")
    else if Contains(compressed, "HARBORHILLSTWO") then Some("HARBOR HILLS TOO")
    else if Contains(compressed, "HILLSHASEYES") then Some("HILLS HAS EYES")
    else if Contains(compressed, "EYESOFTHEHILL") then Some("HILLS HAS EYES")
    else if Contains(compressed, "SIRJAMESPUBDOS") then Some("SIR JAMES PUB 2")
    else if Contains(compressed, "SIRJAMESPUB") then Some("SIR JAMES PUB")
    else if Contains(compressed, "SPEARSNBEERS") then Some("SPEARS N BEERS")
    else None
  }

  /** What NormalizeTeamName may return under any walk order of the alias map. */
  predicate NormalizesTo(name: string, r: string) {
    var upper := Upper(name);
    if VenueRule(upper).Some? then r == VenueRule(upper).value
    else if AliasValues(Compress(name)) != {} then r in AliasValues(Compress(name))
    else r == upper
  }

  /** The canonical names the normaliser produces other than by upper-casing its input. */
  const CanonicalNames: seq<string> := [
    "BRIDGE INN 1", "BRIDGE INN 2", "SIR JAMES PUB 1", "SIR JAMES PUB 2", "SIR JAMES PUB 3",
    "THE HUTCH", "HARBOR HILLS TOO", "HILLS HAS EYES", "SIR JAMES PUB", "SPEARS N BEERS"
  ]

  /** NormalizeTeamName, with the alias map walked in listing order. */
  function NormalizeTeamName(name: string): string {
    var upper := Upper(name);
    match VenueRule(upper)
    case Some(canonical) => canonical
    case None =>
      match AliasLookup(Compress(name))
      case Some(canonical) => canonical
      case None => upper
  }

  /** The listing-order result is one of the results Go may give. */
  lemma NormalizeIsAnOrder(name: string)
    ensures NormalizesTo(name, NormalizeTeamName(name))
  {
  }

  /** The result is a canonical name, or the upper-cased input when no venue rule fires and no
      alias key occurs. */
  lemma NormalizeRange(name: string)
    ensures var r := NormalizeTeamName(name);
      r in CanonicalNames ||
      (r == Upper(name) && VenueRule(Upper(name)).None? && AliasValues(Compress(name)) == {})
  {
  }

  /** The compressed name only holds letters and digits of the upper-cased name. */
  lemma CompressWithin(name: string, allowed: string)
    requires forall c :: c in Upper(name) && IsUpperAlnum(c) ==> c in allowed
    ensures forall c :: c in Compress(name) ==> c in allowed
  {
  }

  /** A name made only of upper-case letters and digits compresses to itself. */
  lemma CompressKeeps(name: string)
    requires forall c :: c in Upper(name) ==> IsUpperAlnum(c)
    ensures Compress(name) == Upper(name)
  {
    FilterKeepsAll(Upper(name), IsUpperAlnum);
  }

  /** Neither venue rule can fire: a character of "BRIDGE INN" and one of "SIR JAMES PUB" are
      missing from the name. */
  lemma NoVenue(u: string, bridge: nat, sir: nat)
    requires bridge < |"BRIDGE INN"| && "BRIDGE INN"[bridge] !in u
    requires sir < |"SIR JAMES PUB"| && "SIR JAMES PUB"[sir] !in u
    ensures VenueRule(u) == None
  {
    Missing(u, "BRIDGE INN 1", bridge);
    Missing(u, "BRIDGE INN", bridge);
    Missing(u, "BRIDGE INN 2", bridge);
    Missing(u, "SIR JAMES PUB 1", sir);
    Missing(u, "SIR JAMES PUB", sir);
    Missing(u, "SIR JAMES PUB 2", sir);
    Missing(u, "SIR JAMES PUB 3", sir);
  }

  lemma NoBridge(u: string)
    requires 'D' !in u
    ensures !Contains(u, "BRIDGE INN 1") && !Contains(u, "BRIDGE INN") && !Contains(u, "BRIDGE INN 2")
  {
    Missing(u, "BRIDGE INN 1", 3);
    Missing(u, "BRIDGE INN", 3);
    Missing(u, "BRIDGE INN 2", 3);
  }

  // The alias keys a compressed name made of the given letters cannot hit, one lemma per
  // canonical name that comes from the alias map.

  lemma TheHutchHits(c: string)
    requires forall ch :: ch in c ==> ch in "THEUC"
    ensures AliasValues(c) <= {"THE HUTCH"}
  {
    Missing(c, "HARBORHILLSTOO", 1);
    Missing(c, "HARBORHILLS2", 1);
    Missing(c, "HARBORHILLSTWO", 1);
    Missing(c, "HILLSHASEYES", 1);
    Missing(c, "EYESOFTHEHILL", 1);
    Missing(c, "SIRJAMESPUBDOS", 0);
    Missing(c, "SIRJAMESPUB", 0);
    Missing(c, "SPEARSNBEERS", 0);
  }

  lemma HarborHillsTooHits(c: string)
    requires forall ch :: ch in c ==> ch in "HARBOILST"
    ensures AliasValues(c) <= {"HARBOR HILLS TOO"}
  {
    Missing(c, "THEHUTCH", 2);
    Missing(c, "HILLSHASEYES", 9);
    Missing(c, "EYESOFTHEHILL", 0);
    Missing(c, "SIRJAMESPUBDOS", 3);
    Missing(c, "SIRJAMESPUB", 3);
    Missing(c, "SPEARSNBEERS", 2);
  }

  lemma HillsHasEyesHits(c: string)
    requires forall ch :: ch in c ==> ch in "HILSAEY"
    ensures AliasValues(c) <= {"HILLS HAS EYES"}
  {
    Missing(c, "THEHUTCH", 0);
    Missing(c, "HARBORHILLSTOO", 2);
    Missing(c, "HARBORHILLS2", 2);
    Missing(c, "HARBORHILLSTWO", 2);
    Missing(c, "SIRJAMESPUBDOS", 2);
    Missing(c, "SIRJAMESPUB", 2);
    Missing(c, "SPEARSNBEERS", 1);
  }

  lemma SirJamesPubHits(c: string)
    requires forall ch :: ch in c ==> ch in "SIRJAMEPUB"
    ensures AliasValues(c) <= {"SIR JAMES PUB"}
  {
    Missing(c, "THEHUTCH", 0);
    Missing(c, "HARBORHILLSTOO", 0);
    Missing(c, "HARBORHILLS2", 0);
    Missing(c, "HARBORHILLSTWO", 0);
    Missing(c, "HILLSHASEYES", 0);
    Missing(c, "EYESOFTHEHILL", 1);
    Missing(c, "SIRJAMESPUBDOS", 12);
    Missing(c, "SPEARSNBEERS", 6);
  }

  lemma SpearsNBeersHits(c: string)
    requires forall ch :: ch in c ==> ch in "SPEARNB"
    ensures AliasValues(c) <= {"SPEARS N BEERS"}
  {
    Missing(c, "THEHUTCH", 0);
    Missing(c, "HARBORHILLSTOO", 0);
    Missing(c, "HARBORHILLS2", 0);
    Missing(c, "HARBORHILLSTWO", 0);
    Missing(c, "HILLSHASEYES", 0);
    Missing(c, "EYESOFTHEHILL", 1);
    Missing(c, "SIRJAMESPUBDOS", 1);
    Missing(c, "SIRJAMESPUB", 1);
  }

  lemma ByeHits(c: string)
    requires forall ch :: ch in c ==> ch in "BYE"
    ensures AliasValues(c) == {}
  {
    Missing(c, "THEHUTCH", 0);
    Missing(c, "HARBORHILLSTOO", 0);
    Missing(c, "HARBORHILLS2", 0);
    Missing(c, "HARBORHILLSTWO", 0);
    Missing(c, "HILLSHASEYES", 0);
    Missing(c, "EYESOFTHEHILL", 3);
    Missing(c, "SIRJAMESPUBDOS", 0);
    Missing(c, "SIRJAMESPUB", 0);
    Missing(c, "SPEARSNBEERS", 0);
  }

  /** An upper-case name no venue rule fires on, whose alias hits all stand for the name itself. */
  predicate AliasFixed(v: string) {
    Upper(v) == v && VenueRule(v).None? && AliasValues(Compress(v)) <= {v}
  }

  // Each name the alias map produces is fixed: its letters, its venue check and its alias hits are
  // established in separate steps, which keeps each evaluation of a literal small.

  lemma TheHutchUpper()
    ensures Upper("THE HUTCH") == "THE HUTCH"
  {
    UpperKeeps("THE HUTCH");
  }

  lemma TheHutchLetters(name: string)
    requires Upper(name) == "THE HUTCH"
    ensures forall c :: c in Compress(name) ==> c in "THEUC"
  {
    CompressWithin(name, "THEUC");
  }

  lemma TheHutchFixed()
    ensures NormalizeTeamName("THE HUTCH") == "THE HUTCH"
    ensures forall r :: NormalizesTo("THE HUTCH", r) <==> r == "THE HUTCH"
  {
    TheHutchUpper();
    NoVenue("THE HUTCH", 0, 0);
    TheHutchLetters("THE HUTCH");
    TheHutchHits(Compress("THE HUTCH"));
    AliasFixedUnique("THE HUTCH");
  }

  lemma HarborHillsTooUpper()
    ensures Upper("HARBOR HILLS TOO") == "HARBOR HILLS TOO"
  {
    UpperKeeps("HARBOR HILLS TOO");
  }

  lemma HarborHillsTooLetters(name: string)
    requires Upper(name) == "HARBOR HILLS TOO"
    ensures forall c :: c in Compress(name) ==> c in "HARBOILST"
  {
    CompressWithin(name, "HARBOILST");
  }

  lemma HarborHillsTooFixed()
    ensures NormalizeTeamName("HARBOR HILLS TOO") == "HARBOR HILLS TOO"
    ensures forall r :: NormalizesTo("HARBOR HILLS TOO", r) <==> r == "HARBOR HILLS TOO"
  {
    HarborHillsTooUpper();
    NoVenue("HARBOR HILLS TOO", 3, 4);
    HarborHillsTooLetters("HARBOR HILLS TOO");
    HarborHillsTooHits(Compress("HARBOR HILLS TOO"));
    AliasFixedUnique("HARBOR HILLS TOO");
  }

  lemma HillsHasEyesUpper()
    ensures Upper("HILLS HAS EYES") == "HILLS HAS EYES"
  {
    UpperKeeps("HILLS HAS EYES");
  }

  lemma HillsHasEyesLetters(name: string)
    requires Upper(name) == "HILLS HAS EYES"
    ensures forall c :: c in Compress(name) ==> c in "HILSAEY"
  {
    CompressWithin(name, "HILSAEY");
  }

  lemma HillsHasEyesFixed()
    ensures NormalizeTeamName("HILLS HAS EYES") == "HILLS HAS EYES"
    ensures forall r :: NormalizesTo("HILLS HAS EYES", r) <==> r == "HILLS HAS EYES"
  {
    HillsHasEyesUpper();
    NoVenue("HILLS HAS EYES", 0, 4);
    HillsHasEyesLetters("HILLS HAS EYES");
    HillsHasEyesHits(Compress("HILLS HAS EYES"));
    AliasFixedUnique("HILLS HAS EYES");
  }

  lemma SirJamesPubUpper()
    ensures Upper("SIR JAMES PUB") == "SIR JAMES PUB"
  {
    UpperKeeps("SIR JAMES PUB");
  }

  lemma SirJamesPubLetters(name: string)
    requires Upper(name) == "SIR JAMES PUB"
    ensures forall c :: c in Compress(name) ==> c in "SIRJAMEPUB"
  {
    CompressWithin(name, "SIRJAMEPUB");
  }

  lemma SirJamesPubFixed()
    ensures NormalizeTeamName("SIR JAMES PUB") == "SIR JAMES PUB"
    ensures forall r :: NormalizesTo("SIR JAMES PUB", r) <==> r == "SIR JAMES PUB"
  {
    SirJamesPubUpper();
    SirJamesPubNoVenue();
    SirJamesPubLetters("SIR JAMES PUB");
    SirJamesPubHits(Compress("SIR JAMES PUB"));
    AliasFixedUnique("SIR JAMES PUB");
  }

  lemma SpearsNBeersUpper()
    ensures Upper("SPEARS N BEERS") == "SPEARS N BEERS"
  {
    UpperKeeps("SPEARS N BEERS");
  }

  lemma SpearsNBeersLetters(name: string)
    requires Upper(name) == "SPEARS N BEERS"
    ensures forall c :: c in Compress(name) ==> c in "SPEARNB"
  {
    CompressWithin(name, "SPEARNB");
  }

  lemma SpearsNBeersFixed()
    ensures NormalizeTeamName("SPEARS N BEERS") == "SPEARS N BEERS"
    ensures forall r :: NormalizesTo("SPEARS N BEERS", r) <==> r == "SPEARS N BEERS"
  {
    SpearsNBeersUpper();
    NoVenue("SPEARS N BEERS", 3, 1);
    SpearsNBeersLetters("SPEARS N BEERS");
    SpearsNBeersHits(Compress("SPEARS N BEERS"));
    AliasFixedUnique("SPEARS N BEERS");
  }

  lemma SirJamesPubNoVenue()
    ensures VenueRule("SIR JAMES PUB") == None
  {
    var u := "SIR JAMES PUB";
    NoBridge(u);
    Missing(u, "SIR JAMES PUB 1", 14);
    Missing(u, "1", 0);
    Missing(u, "SIR JAMES PUB 2", 14);
    Missing(u, "2", 0);
    Missing(u, "DOS", 0);
    Missing(u, "SIR JAMES PUB 3", 14);
    Missing(u, "3", 0);
  }

  lemma BridgeInn1Fixed()
    ensures VenueRule("BRIDGE INN 1") == Some("BRIDGE INN 1")
  {
    assert OccursAt("BRIDGE INN 1", "BRIDGE INN 1", 0);
  }

  lemma BridgeInn2Fixed()
    ensures VenueRule("BRIDGE INN 2") == Some("BRIDGE INN 2")
  {
    var u := "BRIDGE INN 2";
    Missing(u, "BRIDGE INN 1", 11);
    Missing(u, "1", 0);
    assert OccursAt(u, u, 0);
  }

  lemma SirJamesPub1Fixed()
    ensures VenueRule("SIR JAMES PUB 1") == Some("SIR JAMES PUB 1")
  {
    var u := "SIR JAMES PUB 1";
    NoBridge(u);
    assert OccursAt(u, u, 0);
  }

  lemma SirJamesPub2Fixed()
    ensures VenueRule("SIR JAMES PUB 2") == Some("SIR JAMES PUB 2")
  {
    var u := "SIR JAMES PUB 2";
    NoBridge(u);
    Missing(u, "SIR JAMES PUB 1", 14);
    Missing(u, "1", 0);
    assert OccursAt(u, u, 0);
  }

  lemma SirJamesPub3Fixed()
    ensures VenueRule("SIR JAMES PUB 3") == Some("SIR JAMES PUB 3")
  {
    var u := "SIR JAMES PUB 3";
    NoBridge(u);
    Missing(u, "SIR JAMES PUB 1", 14);
    Missing(u, "1", 0);
    Missing(u, "SIR JAMES PUB 2", 14);
    Missing(u, "2", 0);
    Missing(u, "DOS", 0);
    assert OccursAt(u, u, 0);
  }

  /** A name fixed for the alias map normalises to itself, under every walk order. */
  lemma AliasFixedUnique(v: string)
    requires AliasFixed(v)
    ensures NormalizeTeamName(v) == v
    ensures forall r :: NormalizesTo(v, r) <==> r == v
  {
  }

  /** A name a venue rule maps to itself normalises to itself, under every walk order. */
  lemma VenueFixedUnique(v: string)
    requires Upper(v) == v && VenueRule(v) == Some(v)
    ensures NormalizeTeamName(v) == v
    ensures forall r :: NormalizesTo(v, r) <==> r == v
  {
  }

  /** Each canonical name normalises to itself, and under every walk order of the alias map. */
  lemma CanonicalNamesFixed(v: string)
    requires v in CanonicalNames
    ensures NormalizeTeamName(v) == v
    ensures forall r :: NormalizesTo(v, r) <==> r == v
  {
    if v in CanonicalNames[..5] {
      VenueNamesFixed(v);
    } else {
      AliasNamesFixed(v);
    }
  }

  lemma VenueNamesFixed(v: string)
    requires v in CanonicalNames[..5]
    ensures NormalizeTeamName(v) == v
    ensures forall r :: NormalizesTo(v, r) <==> r == v
  {
    UpperKeeps(v);
    if v == "BRIDGE INN 1" { BridgeInn1Fixed(); }
    else if v == "BRIDGE INN 2" { BridgeInn2Fixed(); }
    else if v == "SIR JAMES PUB 1" { SirJamesPub1Fixed(); }
    else if v == "SIR JAMES PUB 2" { SirJamesPub2Fixed(); }
    else { SirJamesPub3Fixed(); }
    VenueFixedUnique(v);
  }

  lemma AliasNamesFixed(v: string)
    requires v in CanonicalNames[5..]
    ensures NormalizeTeamName(v) == v
    ensures forall r :: NormalizesTo(v, r) <==> r == v
  {
    if v == "THE HUTCH" { TheHutchFixed(); }
    else if v == "HARBOR HILLS TOO" { HarborHillsTooFixed(); }
    else if v == "HILLS HAS EYES" { HillsHasEyesFixed(); }
    else if v == "SIR JAMES PUB" { SirJamesPubFixed(); }
    else { SpearsNBeersFixed(); }
  }

  /** NormalizeTeamName is idempotent. */
  lemma NormalizeIdempotent(name: string)
    ensures NormalizeTeamName(NormalizeTeamName(name)) == NormalizeTeamName(name)
  {
    var r := NormalizeTeamName(name);
    NormalizeRange(name);
    if r in CanonicalNames {
      CanonicalNamesFixed(r);
    } else {
      UpperIdempotent(name);
    }
  }

  /** Idempotence holds whatever order Go walks the alias map in: every possible result normalises
      to itself and to nothing else. */
  lemma NormalizesToIdempotent(name: string, r: string, r2: string)
    requires NormalizesTo(name, r)
    ensures NormalizesTo(r, r2) <==> r2 == r
  {
    var upper := Upper(name);
    if VenueRule(upper).Some? {
      VenueRuleCanonical(upper);
      CanonicalNamesFixed(r);
    } else if AliasValues(Compress(name)) != {} {
      AliasValuesCanonical(Compress(name));
      AliasNamesCanonical(r);
      CanonicalNamesFixed(r);
    } else {
      UpperSettles(name);
    }
  }

  lemma VenueRuleCanonical(upper: string)
    requires VenueRule(upper).Some?
    ensures VenueRule(upper).value in CanonicalNames
  {
    var v := VenueRule(upper).value;
    assert v == CanonicalNames[0] || v == CanonicalNames[1] || v == CanonicalNames[2] ||
      v == CanonicalNames[3] || v == CanonicalNames[4];
  }

  const AliasNames := {"THE HUTCH", "HARBOR HILLS TOO", "HILLS HAS EYES", "SIR JAMES PUB 2", "SIR JAMES PUB", "SPEARS N BEERS"}

  lemma AliasValuesCanonical(c: string)
    ensures AliasValues(c) <= AliasNames
  {
  }

  lemma AliasNamesCanonical(v: string)
    requires v in AliasNames
    ensures v in CanonicalNames
  {
    assert v == CanonicalNames[5] || v == CanonicalNames[6] || v == CanonicalNames[7] ||
      v == CanonicalNames[3] || v == CanonicalNames[8] || v == CanonicalNames[9];
  }

  /** A name that no rule changes other than upper-casing stays put once upper-cased. */
  lemma UpperSettles(name: string)
    requires VenueRule(Upper(name)).None? && AliasValues(Compress(name)) == {}
    ensures forall r :: NormalizesTo(Upper(name), r) <==> r == Upper(name)
  {
    UpperIdempotent(name);
    assert Compress(Upper(name)) == Compress(name);
  }

  /** The normaliser looks only at the upper-cased name. */
  lemma NormalizeIgnoresCase(a: string, b: string)
    requires Upper(a) == Upper(b)
    ensures NormalizeTeamName(a) == NormalizeTeamName(b)
    ensures forall r :: NormalizesTo(a, r) <==> NormalizesTo(b, r)
  {
  }

  lemma SirJamesDosKeys(c: string)
    requires c == "SIRJAMESPUBDOS"
    ensures Contains(c, "SIRJAMESPUBDOS") && Contains(c, "SIRJAMESPUB")
    ensures forall ch :: ch in c ==> ch in "SIRJAMEPUBDO"
  {
    assert OccursAt(c, "SIRJAMESPUBDOS", 0);
    assert OccursAt(c, "SIRJAMESPUB", 0);
  }

  lemma SirJamesDosMisses(c: string)
    requires forall ch :: ch in c ==> ch in "SIRJAMEPUBDO"
    ensures AliasValues(c) <= {"SIR JAMES PUB 2", "SIR JAMES PUB"}
  {
    Missing(c, "THEHUTCH", 0);
    Missing(c, "HARBORHILLSTOO", 0);
    Missing(c, "HARBORHILLS2", 0);
    Missing(c, "HARBORHILLSTWO", 0);
    Missing(c, "HILLSHASEYES", 0);
    Missing(c, "EYESOFTHEHILL", 1);
    Missing(c, "SPEARSNBEERS", 6);
  }

  lemma SirJamesDosValues(c: string)
    requires Contains(c, "SIRJAMESPUBDOS") && Contains(c, "SIRJAMESPUB")
    requires AliasValues(c) <= {"SIR JAMES PUB 2", "SIR JAMES PUB"}
    ensures "SIR JAMES PUB 2" in AliasValues(c) && "SIR JAMES PUB" in AliasValues(c)
    ensures AliasLookup(c) == Some("SIR JAMES PUB 2")
  {
  }

  /** The compressed name "SIRJAMESPUBDOS" hits two alias keys that stand for different teams. */
  lemma SirJamesDosHits(c: string)
    requires c == "SIRJAMESPUBDOS"
    ensures "SIR JAMES PUB 2" in AliasValues(c) && "SIR JAMES PUB" in AliasValues(c)
    ensures AliasLookup(c) == Some("SIR JAMES PUB 2")
  {
    SirJamesDosKeys(c);
    SirJamesDosMisses(c);
    SirJamesDosValues(c);
  }

  lemma SirJamesDosCompress(name: string)
    requires Upper(name) == "SIRJAMESPUBDOS"
    ensures Compress(name) == "SIRJAMESPUBDOS"
  {
    CompressKeeps(name);
  }

  /** "SIRJAMESPUBDOS" hits two alias keys that stand for different teams, so Go may answer either;
      the listing order picks the "DOS" one. */
  lemma SirJamesDosAmbiguity()
    ensures NormalizesTo("SIRJAMESPUBDOS", "SIR JAMES PUB 2")
    ensures NormalizesTo("SIRJAMESPUBDOS", "SIR JAMES PUB")
    ensures NormalizeTeamName("SIRJAMESPUBDOS") == "SIR JAMES PUB 2"
  {
    UpperKeeps("SIRJAMESPUBDOS");
    NoVenue("SIRJAMESPUBDOS", 4, 3);
    SirJamesDosCompress("SIRJAMESPUBDOS");
    SirJamesDosHits(Compress("SIRJAMESPUBDOS"));
  }

  lemma HarborHillsTooKey(c: string)
    requires c == "HARBORHILLSTOO"
    ensures !Contains(c, "THEHUTCH") && Contains(c, "HARBORHILLSTOO")
  {
    Missing(c, "THEHUTCH", 2);
    assert OccursAt(c, "HARBORHILLSTOO", 0);
  }

  lemma HarborHillsTooHit(name: string)
    requires Upper(name) == "HARBORHILLSTOO"
    ensures AliasLookup(Compress(name)) == Some("HARBOR HILLS TOO")
  {
    CompressKeeps(name);
    HarborHillsTooKey(Compress(name));
  }

  lemma HarborHillsTooUpperCases()
    ensures Upper("harborhillstoo") == "HARBORHILLSTOO"
  {
  }

  /** A known alias spelling, in any letter case, maps to its canonical name. */
  lemma HarborHillsTooAlias()
    ensures NormalizeTeamName("harborhillstoo") == "HARBOR HILLS TOO"
  {
    HarborHillsTooUpperCases();
    NoVenue("HARBORHILLSTOO", 3, 3);
    HarborHillsTooHit("harborhillstoo");
  }

  // ---------------------------------------------------------------- opponents

  /** The entry is in `week` and one of its sides normalises to the same name as `team`. */
  predicate Involves(team: string, week: int, e: MatchSchedule) {
    e.week == week &&
    (NormalizeTeamName(team) == NormalizeTeamName(e.homeTeam) ||
     NormalizeTeamName(team) == NormalizeTeamName(e.awayTeam))
  }

  /** The side of the entry that `team` is not on, as written in the schedule; home is tried first. */
  function OtherSide(team: string, e: MatchSchedule): string {
    if NormalizeTeamName(team) == NormalizeTeamName(e.homeTeam) then e.awayTeam else e.homeTeam
  }

  /** FindOpponent of the parser package. */
  function FindOpponent(team: string, week: int, schedules: seq<MatchSchedule>): string {
    if schedules == [] then "Unknown"
    else
      var e := schedules[0];
      if e.week == week && NormalizeTeamName(team) == NormalizeTeamName(e.homeTeam) then e.awayTeam
      else if e.week == week && NormalizeTeamName(team) == NormalizeTeamName(e.awayTeam) then e.homeTeam
      else FindOpponent(team, week, schedules[1..])
  }

  /** One entry of the search: an entry that involves the team decides, any other is passed. */
  lemma FindOpponentStep(team: string, week: int, schedules: seq<MatchSchedule>)
    requires schedules != []
    ensures FindOpponent(team, week, schedules) ==
      if Involves(team, week, schedules[0]) then OtherSide(team, schedules[0])
      else FindOpponent(team, week, schedules[1..])
  {
  }

  /** With no entry involving the team in that week the result is "Unknown". */
  lemma {:induction false} FindOpponentUnknown(team: string, week: int, schedules: seq<MatchSchedule>)
    requires forall i :: 0 <= i < |schedules| ==> !Involves(team, week, schedules[i])
    ensures FindOpponent(team, week, schedules) == "Unknown"
  {
    if schedules != [] {
      FindOpponentStep(team, week, schedules);
      assert forall i :: 1 <= i < |schedules| ==> schedules[1..][i - 1] == schedules[i];
      FindOpponentUnknown(team, week, schedules[1..]);
    }
  }

  /** The first entry, in list order, that involves the team in that week decides the result. */
  lemma {:induction false} FindOpponentFirstMatch(team: string, week: int, schedules: seq<MatchSchedule>, i: nat)
    requires i < |schedules| && Involves(team, week, schedules[i])
    requires forall j :: 0 <= j < i ==> !Involves(team, week, schedules[j])
    ensures FindOpponent(team, week, schedules) == OtherSide(team, schedules[i])
  {
    FindOpponentStep(team, week, schedules);
    if i > 0 {
      assert forall j :: 0 <= j < i - 1 ==> schedules[1..][j] == schedules[j + 1];
      FindOpponentFirstMatch(team, week, schedules[1..], i - 1);
    }
  }

  /** What main.go's FindOpponent answers for the entry that decides: "BYE" when the other side is
      the word BYE in any letter case, else the other side as written. */
  function ByeOtherSide(team: string, e: MatchSchedule): string {
    if Upper(e.awayTeam) == "BYE" && NormalizeTeamName(team) == NormalizeTeamName(e.homeTeam) then "BYE"
    else if Upper(e.homeTeam) == "BYE" && NormalizeTeamName(team) == NormalizeTeamName(e.awayTeam) then "BYE"
    else OtherSide(team, e)
  }

  /** FindOpponent of main.go, which treats BYE entries specially. */
  function FindOpponentWithBye(team: string, week: int, schedules: seq<MatchSchedule>): string {
    if schedules == [] then "Unknown"
    else
      var e := schedules[0];
      if e.week == week then
        var normTeam := NormalizeTeamName(team);
        var normHome := NormalizeTeamName(e.homeTeam);
        var normAway := NormalizeTeamName(e.awayTeam);
        if Upper(e.awayTeam) == "BYE" && normTeam == normHome then "BYE"
        else if Upper(e.homeTeam) == "BYE" && normTeam == normAway then "BYE"
        else if normTeam == normHome then e.awayTeam
        else if normTeam == normAway then e.homeTeam
        else FindOpponentWithBye(team, week, schedules[1..])
      else FindOpponentWithBye(team, week, schedules[1..])
  }

  lemma FindOpponentWithByeStep(team: string, week: int, schedules: seq<MatchSchedule>)
    requires schedules != []
    ensures FindOpponentWithBye(team, week, schedules) ==
      if Involves(team, week, schedules[0]) then ByeOtherSide(team, schedules[0])
      else FindOpponentWithBye(team, week, schedules[1..])
  {
  }

  lemma {:induction false} FindOpponentWithByeUnknown(team: string, week: int, schedules: seq<MatchSchedule>)
    requires forall i :: 0 <= i < |schedules| ==> !Involves(team, week, schedules[i])
    ensures FindOpponentWithBye(team, week, schedules) == "Unknown"
  {
    if schedules != [] {
      FindOpponentWithByeStep(team, week, schedules);
      assert forall i :: 1 <= i < |schedules| ==> schedules[1..][i - 1] == schedules[i];
      FindOpponentWithByeUnknown(team, week, schedules[1..]);
    }
  }

  /** In main.go's version too the first involving entry decides, with BYE answered as "BYE". */
  lemma {:induction false} FindOpponentWithByeFirstMatch(team: string, week: int, schedules: seq<MatchSchedule>, i: nat)
    requires i < |schedules| && Involves(team, week, schedules[i])
    requires forall j :: 0 <= j < i ==> !Involves(team, week, schedules[j])
    ensures FindOpponentWithBye(team, week, schedules) == ByeOtherSide(team, schedules[i])
  {
    FindOpponentWithByeStep(team, week, schedules);
    if i > 0 {
      assert forall j :: 0 <= j < i - 1 ==> schedules[1..][j] == schedules[j + 1];
      FindOpponentWithByeFirstMatch(team, week, schedules[1..], i - 1);
    }
  }

  /** The two versions agree whenever main.go's does not answer "BYE". */
  lemma {:induction false} WithByeAgreesOtherwise(team: string, week: int, schedules: seq<MatchSchedule>)
    ensures FindOpponentWithBye(team, week, schedules) != "BYE" ==>
      FindOpponentWithBye(team, week, schedules) == FindOpponent(team, week, schedules)
  {
    if schedules != [] {
      WithByeAgreesOtherwise(team, week, schedules[1..]);
    }
  }

  /** Only the word BYE, in some letter case, normalises to "BYE". */
  lemma NormalizedBye(name: string)
    requires NormalizeTeamName(name) == "BYE"
    ensures Upper(name) == "BYE"
  {
    NormalizeRange(name);
  }

  lemma ByeNormalizesToBye(name: string)
    requires Upper(name) == "BYE"
    ensures NormalizeTeamName(name) == "BYE"
  {
    NoVenue("BYE", 1, 0);
    CompressWithin(name, "BYE");
    ByeHits(Compress(name));
  }

  /** When main.go answers "BYE", the parser package answers the same word in some letter case. */
  lemma {:induction false} WithByeOnlyRespells(team: string, week: int, schedules: seq<MatchSchedule>)
    ensures FindOpponentWithBye(team, week, schedules) == "BYE" ==>
      Upper(FindOpponent(team, week, schedules)) == "BYE"
  {
    if schedules != [] {
      var e := schedules[0];
      WithByeOnlyRespells(team, week, schedules[1..]);
      if e.week == week && FindOpponentWithBye(team, week, schedules) == "BYE" {
        var nt := NormalizeTeamName(team);
        if Upper(e.awayTeam) == "BYE" && nt == NormalizeTeamName(e.homeTeam) {
        } else if Upper(e.homeTeam) == "BYE" && nt == NormalizeTeamName(e.awayTeam) {
          if nt == NormalizeTeamName(e.homeTeam) {
            ByeNormalizesToBye(e.homeTeam);
            NormalizedBye(e.awayTeam);
          }
        }
      }
    }
  }

  /** A team with a BYE entry in the week is told "BYE"; with no schedule it is told "Unknown". */
  lemma ByeScenario(date: string)
    ensures FindOpponentWithBye("REDHEADS", 5, [MatchSchedule(5, date, "REDHEADS", "BYE")]) == "BYE"
    ensures FindOpponent("UNKNOWN TEAM", 9, []) == "Unknown"
    ensures FindOpponentWithBye("UNKNOWN TEAM", 9, []) == "Unknown"
  {
    assert Upper("BYE") == "BYE";
  }
}
