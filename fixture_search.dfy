/** Case-insensitive search over the fixture publications (src/mock-data/index.ts), decided
    text by text. A search term is absent from a text when the text lacks, in either case, one
    of the term's letters or one of its adjacent letter pairs. Each text is cut into short
    segments that are checked one by one and joined back, one lemma per join, so that each
    proof stays small. */
module FixtureSearch {
  import opened Strings
  import opened MockData
  import PublicationsPage

  // The title of pub-2, segment by segment: no "e" followed by "n", in either case, so no
  // "cement" (whose letters 4 and 5 are "en"). Parts 1-3 build the first literal, 4-6 the second.
  lemma Pub2TitlePart1()
    ensures !HasPairIgnoringCase("ed Materials o" + "n ", 'e', 'n')
  {
    NoPairWithout("ed Materials o", 'e', 'n');
    NoPairWithout("n ", 'e', 'n');
    NoPairConcat("ed Materials o", "n ", 'e', 'n');
  }

  lemma Pub2TitlePart2()
    ensures !HasPairIgnoringCase("Impact of Advanc" + ("ed Materials o" + "n "), 'e', 'n')
  {
    NoPairWithout("Impact of Advanc", 'e', 'n');
    Pub2TitlePart1();
    NoPairConcat("Impact of Advanc", ("ed Materials o" + "n "), 'e', 'n');
  }

  lemma Pub2TitlePart3()
    ensures !HasPairIgnoringCase("Impact of Advanced Materials on ", 'e', 'n')
  {
    assert "Impact of Advanced Materials on " == "Impact of Advanc" + ("ed Materials o" + "n ");
    Pub2TitlePart2();
  }

  lemma Pub2TitlePart4()
    ensures !HasPairIgnoringCase("emperature Regul" + "ation", 'e', 'n')
  {
    NoPairWithout("emperature Regul", 'e', 'n');
    NoPairWithout("ation", 'e', 'n');
    NoPairConcat("emperature Regul", "ation", 'e', 'n');
  }

  lemma Pub2TitlePart5()
    ensures !HasPairIgnoringCase("Urban T" + ("emperature Regul" + "ation"), 'e', 'n')
  {
    NoPairWithout("Urban T", 'e', 'n');
    Pub2TitlePart4();
    NoPairConcat("Urban T", ("emperature Regul" + "ation"), 'e', 'n');
  }

  lemma Pub2TitlePart6()
    ensures !HasPairIgnoringCase("Urban Temperature Regulation", 'e', 'n')
  {
    assert "Urban Temperature Regulation" == "Urban T" + ("emperature Regul" + "ation");
    Pub2TitlePart5();
  }

  /** The title of pub-2 lacks "cement" in any case. */
  lemma CementNotInPub2Title()
    ensures !Contains(ToLower(Pub2Title), "cement")
  {
    Pub2TitlePart3();
    Pub2TitlePart6();
    LastOfConcat("Impact of Advanced Materials on ", "Urban Temperature Regulation");
    NoPairConcat("Impact of Advanced Materials on ", "Urban Temperature Regulation", 'e', 'n');
    NoMatchByPair(Pub2Title, "cement", 3);
  }

  // The abstract of pub-2, segment by segment: no "n" followed by "t", in either case, so no
  // "cement" (whose last two letters are "nt"). Each part joins one more segment or literal.
  lemma Pub2AbstractPart1()
    ensures !HasPairIgnoringCase("A comprehensive " + "analysis of how ", 'n', 't')
  {
    NoPairWithout("A comprehensive ", 'n', 't');
    NoPairWithout("analysis of how ", 'n', 't');
    NoPairConcat("A comprehensive ", "analysis of how ", 'n', 't');
  }

  lemma Pub2AbstractPart2()
    ensures !HasPairIgnoringCase("A comprehensive analysis of how ", 'n', 't')
  {
    assert "A comprehensive analysis of how " == "A comprehensive " + "analysis of how ";
    Pub2AbstractPart1();
  }

  lemma Pub2AbstractPart3()
    ensures !HasPairIgnoringCase("specialized mate" + "rials can ", 'n', 't')
  {
    NoPairWithout("specialized mate", 'n', 't');
    NoPairWithout("rials can ", 'n', 't');
    NoPairConcat("specialized mate", "rials can ", 'n', 't');
  }

  lemma Pub2AbstractPart4()
    ensures !HasPairIgnoringCase("specialized materials can ", 'n', 't')
  {
    assert "specialized materials can " == "specialized mate" + "rials can ";
    Pub2AbstractPart3();
  }

  lemma Pub2AbstractPart5()
    ensures !HasPairIgnoringCase("mitigate urba" + "n hea", 'n', 't')
  {
    NoPairWithout("mitigate urba", 'n', 't');
    NoPairWithout("n hea", 'n', 't');
    NoPairConcat("mitigate urba", "n hea", 'n', 't');
  }

  lemma Pub2AbstractPart6()
    ensures !HasPairIgnoringCase("t isla" + "nd ", 'n', 't')
  {
    NoPairWithout("t isla", 'n', 't');
    NoPairWithout("nd ", 'n', 't');
    NoPairConcat("t isla", "nd ", 'n', 't');
  }

  lemma Pub2AbstractPart7()
    ensures !HasPairIgnoringCase(("mitigate urba" + "n hea") + ("t isla" + "nd "), 'n', 't')
  {
    Pub2AbstractPart5();
    Pub2AbstractPart6();
    NoPairConcat(("mitigate urba" + "n hea"), ("t isla" + "nd "), 'n', 't');
  }

  lemma Pub2AbstractPart8()
    ensures !HasPairIgnoringCase("mitigate urban heat island ", 'n', 't')
  {
    assert "mitigate urban heat island " == ("mitigate urba" + "n hea") + ("t isla" + "nd ");
    Pub2AbstractPart7();
  }

  lemma Pub2AbstractPart9()
    ensures !HasPairIgnoringCase("effects, with ca" + "se studies from ", 'n', 't')
  {
    NoPairWithout("effects, with ca", 'n', 't');
    NoPairWithout("se studies from ", 'n', 't');
    NoPairConcat("effects, with ca", "se studies from ", 'n', 't');
  }

  lemma Pub2AbstractPart10()
    ensures !HasPairIgnoringCase("effects, with case studies from ", 'n', 't')
  {
    assert "effects, with case studies from " == "effects, with ca" + "se studies from ";
    Pub2AbstractPart9();
  }

  lemma Pub2AbstractPart11()
    ensures !HasPairIgnoringCase("five major citie" + "s.", 'n', 't')
  {
    NoPairWithout("five major citie", 'n', 't');
    NoPairWithout("s.", 'n', 't');
    NoPairConcat("five major citie", "s.", 'n', 't');
  }

  lemma Pub2AbstractPart12()
    ensures !HasPairIgnoringCase("five major cities.", 'n', 't')
  {
    assert "five major cities." == "five major citie" + "s.";
    Pub2AbstractPart11();
  }

  lemma Pub2AbstractPart13()
    ensures !HasPairIgnoringCase("A comprehensive analysis of how " + "specialized materials can ", 'n', 't')
  {
    Pub2AbstractPart2();
    Pub2AbstractPart4();
    LastOfConcat("A comprehensive analysis of how ", "specialized materials can ");
    NoPairConcat("A comprehensive analysis of how ", "specialized materials can ", 'n', 't');
  }

  lemma Pub2AbstractPart14()
    ensures !HasPairIgnoringCase("A comprehensive analysis of how " + "specialized materials can " + "mitigate urban heat island ", 'n', 't')
  {
    Pub2AbstractPart13();
    Pub2AbstractPart8();
    LastOfConcat("A comprehensive analysis of how " + "specialized materials can ", "mitigate urban heat island ");
    NoPairConcat("A comprehensive analysis of how " + "specialized materials can ", "mitigate urban heat island ", 'n', 't');
  }

  lemma Pub2AbstractPart15()
    ensures !HasPairIgnoringCase("A comprehensive analysis of how " + "specialized materials can " + "mitigate urban heat island " + "effects, with case studies from ", 'n', 't')
  {
    Pub2AbstractPart14();
    Pub2AbstractPart10();
    LastOfConcat("A comprehensive analysis of how " + "specialized materials can " + "mitigate urban heat island ", "effects, with case studies from ");
    NoPairConcat("A comprehensive analysis of how " + "specialized materials can " + "mitigate urban heat island ", "effects, with case studies from ", 'n', 't');
  }

  /** The abstract of pub-2 lacks "cement" in any case. */
  lemma CementNotInPub2Abstract()
    ensures !Contains(ToLower(Pub2Abstract), "cement")
  {
    Pub2AbstractPart15();
    Pub2AbstractPart12();
    LastOfConcat("A comprehensive analysis of how " + "specialized materials can " + "mitigate urban heat island " + "effects, with case studies from ", "five major cities.");
    NoPairConcat("A comprehensive analysis of how " + "specialized materials can " + "mitigate urban heat island " + "effects, with case studies from ", "five major cities.", 'n', 't');
    NoMatchByPair(Pub2Abstract, "cement", 4);
  }

  /** The name Dr. Michael Rodriguez lacks "cement" in any case. */
  lemma CementNotInMichaelRodriguez()
    ensures !Contains(ToLower("Dr. Michael Rodriguez"), "cement")
  {
    NoMatchByChar("Dr. Michael Rodriguez", "cement", 4);
  }

  /** The name Dr. Sarah Chen lacks "cement" in any case. */
  lemma CementNotInSarahChen()
    ensures !Contains(ToLower("Dr. Sarah Chen"), "cement")
  {
    NoMatchByChar("Dr. Sarah Chen", "cement", 2);
  }

  /** No field of pub-2 contains "cement" in any case. */
  lemma CementNotInPub2()
    ensures !PublicationsPage.MatchesSearch(Publication2, "cement")
  {
    assert ToLower("cement") == "cement";
    CementNotInPub2Title();
    CementNotInMichaelRodriguez();
    CementNotInSarahChen();
    CementNotInPub2Abstract();
  }

  // The title of pub-3, segment by segment: no "e" followed by "m", in either case, so no
  // "cement" (whose letters 2 and 3 are "em").
  lemma Pub3TitlePart1()
    ensures !HasPairIgnoringCase("lym" + "ers for ", 'e', 'm')
  {
    NoPairWithout("lym", 'e', 'm');
    NoPairWithout("ers for ", 'e', 'm');
    NoPairConcat("lym", "ers for ", 'e', 'm');
  }

  lemma Pub3TitlePart2()
    ensures !HasPairIgnoringCase("Biodegradable Po" + ("lym" + "ers for "), 'e', 'm')
  {
    NoPairWithout("Biodegradable Po", 'e', 'm');
    Pub3TitlePart1();
    NoPairConcat("Biodegradable Po", ("lym" + "ers for "), 'e', 'm');
  }

  lemma Pub3TitlePart3()
    ensures !HasPairIgnoringCase("Biodegradable Polymers for ", 'e', 'm')
  {
    assert "Biodegradable Polymers for " == "Biodegradable Po" + ("lym" + "ers for ");
    Pub3TitlePart2();
  }

  lemma Pub3TitlePart4()
    ensures !HasPairIgnoringCase("Enhanced Water F" + "iltration", 'e', 'm')
  {
    NoPairWithout("Enhanced Water F", 'e', 'm');
    NoPairWithout("iltration", 'e', 'm');
    NoPairConcat("Enhanced Water F", "iltration", 'e', 'm');
  }

  lemma Pub3TitlePart5()
    ensures !HasPairIgnoringCase("Enhanced Water Filtration", 'e', 'm')
  {
    assert "Enhanced Water Filtration" == "Enhanced Water F" + "iltration";
    Pub3TitlePart4();
  }

  /** The title of pub-3 lacks "cement" in any case. */
  lemma CementNotInPub3Title()
    ensures !Contains(ToLower(Pub3Title), "cement")
  {
    Pub3TitlePart3();
    Pub3TitlePart5();
    LastOfConcat("Biodegradable Polymers for ", "Enhanced Water Filtration");
    NoPairConcat("Biodegradable Polymers for ", "Enhanced Water Filtration", 'e', 'm');
    NoMatchByPair(Pub3Title, "cement", 1);
  }

  // The abstract of pub-3, segment by segment: no "c" followed by "e", in either case, so no
  // "cement" (which starts with "ce").
  lemma Pub3AbstractPart1()
    ensures !HasPairIgnoringCase("Development and " + "testing of new ", 'c', 'e')
  {
    NoPairWithout("Development and ", 'c', 'e');
    NoPairWithout("testing of new ", 'c', 'e');
    NoPairConcat("Development and ", "testing of new ", 'c', 'e');
  }

  lemma Pub3AbstractPart2()
    ensures !HasPairIgnoringCase("Development and testing of new ", 'c', 'e')
  {
    assert "Development and testing of new " == "Development and " + "testing of new ";
    Pub3AbstractPart1();
  }

  lemma Pub3AbstractPart3()
    ensures !HasPairIgnoringCase("biodegradable po" + "lymer membranes ", 'c', 'e')
  {
    NoPairWithout("biodegradable po", 'c', 'e');
    NoPairWithout("lymer membranes ", 'c', 'e');
    NoPairConcat("biodegradable po", "lymer membranes ", 'c', 'e');
  }

  lemma Pub3AbstractPart4()
    ensures !HasPairIgnoringCase("biodegradable polymer membranes ", 'c', 'e')
  {
    assert "biodegradable polymer membranes " == "biodegradable po" + "lymer membranes ";
    Pub3AbstractPart3();
  }

  lemma Pub3AbstractPart5()
    ensures !HasPairIgnoringCase("for water purifi" + "cation ", 'c', 'e')
  {
    NoPairWithout("for water purifi", 'c', 'e');
    NoPairWithout("cation ", 'c', 'e');
    NoPairConcat("for water purifi", "cation ", 'c', 'e');
  }

  lemma Pub3AbstractPart6()
    ensures !HasPairIgnoringCase("for water purification ", 'c', 'e')
  {
    assert "for water purification " == "for water purifi" + "cation ";
    Pub3AbstractPart5();
  }

  lemma Pub3AbstractPart7()
    ensures !HasPairIgnoringCase("Development and testing of new " + "biodegradable polymer membranes ", 'c', 'e')
  {
    Pub3AbstractPart2();
    Pub3AbstractPart4();
    LastOfConcat("Development and testing of new ", "biodegradable polymer membranes ");
    NoPairConcat("Development and testing of new ", "biodegradable polymer membranes ", 'c', 'e');
  }

  lemma Pub3AbstractPart8()
    ensures !HasPairIgnoringCase("Development and testing of new " + "biodegradable polymer membranes " + "for water purification ", 'c', 'e')
  {
    Pub3AbstractPart7();
    Pub3AbstractPart6();
    LastOfConcat("Development and testing of new " + "biodegradable polymer membranes ", "for water purification ");
    NoPairConcat("Development and testing of new " + "biodegradable polymer membranes ", "for water purification ", 'c', 'e');
  }

  /** The abstract of pub-3 lacks "cement" in any case. */
  lemma CementNotInPub3Abstract()
    ensures !Contains(ToLower(Pub3Abstract), "cement")
  {
    Pub3AbstractPart8();
    NoPairWithout("applications.", 'c', 'e');
    LastOfConcat("Development and testing of new " + "biodegradable polymer membranes " + "for water purification ", "applications.");
    NoPairConcat("Development and testing of new " + "biodegradable polymer membranes " + "for water purification ", "applications.", 'c', 'e');
    NoMatchByPair(Pub3Abstract, "cement", 0);
  }

  /** The name Prof. Emily Watson lacks "cement" in any case. */
  lemma CementNotInEmilyWatson()
    ensures !Contains(ToLower("Prof. Emily Watson"), "cement")
  {
    NoMatchByChar("Prof. Emily Watson", "cement", 0);
  }

  /** No field of pub-3 contains "cement" in any case. */
  lemma CementNotInPub3()
    ensures !PublicationsPage.MatchesSearch(Publication3, "cement")
  {
    assert ToLower("cement") == "cement";
    CementNotInPub3Title();
    CementNotInMichaelRodriguez();
    CementNotInEmilyWatson();
    CementNotInPub3Abstract();
  }

  // The two literals of pub-1's title hold no "y" in either case, so no "polymer".
  lemma Pub1TitlePart1()
    ensures 'y' !in "Novel Approaches to Low-Carbon " && 'Y' !in "Novel Approaches to Low-Carbon "
  {
  }

  lemma Pub1TitlePart2()
    ensures 'y' !in "Cement Production" && 'Y' !in "Cement Production"
  {
  }

  /** The title of pub-1 lacks "polymer" in any case. */
  lemma PolymerNotInPub1Title()
    ensures !Contains(ToLower(Pub1Title), "polymer")
  {
    Pub1TitlePart1();
    Pub1TitlePart2();
    NoMatchByChar(Pub1Title, "polymer", 3);
  }

  // The literals of pub-1's abstract hold no "y" in either case, so no "polymer". Parts 1-6
  // cover one literal each; the later parts join them.
  lemma Pub1AbstractPart1()
    ensures 'y' !in "This paper presents innovative " && 'Y' !in "This paper presents innovative "
  {
  }

  lemma Pub1AbstractPart2()
    ensures 'y' !in "approaches to reducing carbon " && 'Y' !in "approaches to reducing carbon "
  {
  }

  lemma Pub1AbstractPart3()
    ensures 'y' !in "emissions in cement production " && 'Y' !in "emissions in cement production "
  {
  }

  lemma Pub1AbstractPart4()
    ensures 'y' !in "through alternative binder " && 'Y' !in "through alternative binder "
  {
  }

  lemma Pub1AbstractPart5()
    ensures 'y' !in "materials and process " && 'Y' !in "materials and process "
  {
  }

  lemma Pub1AbstractPart6()
    ensures 'y' !in "optimization." && 'Y' !in "optimization."
  {
  }

  lemma Pub1AbstractPart7()
    ensures 'y' !in "This paper presents innovative " + "approaches to reducing carbon " && 'Y' !in "This paper presents innovative " + "approaches to reducing carbon "
  {
    Pub1AbstractPart1();
    Pub1AbstractPart2();
  }

  lemma Pub1AbstractPart8()
    ensures 'y' !in "This paper presents innovative " + "approaches to reducing carbon " + "emissions in cement production " && 'Y' !in "This paper presents innovative " + "approaches to reducing carbon " + "emissions in cement production "
  {
    Pub1AbstractPart7();
    Pub1AbstractPart3();
  }

  lemma Pub1AbstractPart9()
    ensures 'y' !in "This paper presents innovative " + "approaches to reducing carbon " + "emissions in cement production " + "through alternative binder " && 'Y' !in "This paper presents innovative " + "approaches to reducing carbon " + "emissions in cement production " + "through alternative binder "
  {
    Pub1AbstractPart8();
    Pub1AbstractPart4();
  }

  lemma Pub1AbstractPart10()
    ensures 'y' !in "This paper presents innovative " + "approaches to reducing carbon " + "emissions in cement production " + "through alternative binder " + "materials and process " && 'Y' !in "This paper presents innovative " + "approaches to reducing carbon " + "emissions in cement production " + "through alternative binder " + "materials and process "
  {
    Pub1AbstractPart9();
    Pub1AbstractPart5();
  }

  /** The abstract of pub-1 lacks "polymer" in any case. */
  lemma PolymerNotInPub1Abstract()
    ensures !Contains(ToLower(Pub1Abstract), "polymer")
  {
    Pub1AbstractPart10();
    Pub1AbstractPart6();
    NoMatchByChar(Pub1Abstract, "polymer", 3);
  }

  /** The name Dr. Sarah Chen lacks "polymer" in any case. */
  lemma PolymerNotInSarahChen()
    ensures !Contains(ToLower("Dr. Sarah Chen"), "polymer")
  {
    NoMatchByChar("Dr. Sarah Chen", "polymer", 0);
  }

  /** The name Prof. Emily Watson lacks "polymer" in any case. */
  lemma PolymerNotInEmilyWatson()
    ensures !Contains(ToLower("Prof. Emily Watson"), "polymer")
  {
    assert "Prof. Emily Watson" == "Pr" + "of. Emily Watson";
    NoPairWithout("Pr", 'p', 'o');
    NoPairWithout("of. Emily Watson", 'p', 'o');
    NoPairConcat("Pr", "of. Emily Watson", 'p', 'o');
    NoMatchByPair("Prof. Emily Watson", "polymer", 0);
  }

  /** The name Dr. Ahmed Hassan lacks "polymer" in any case. */
  lemma PolymerNotInAhmedHassan()
    ensures !Contains(ToLower("Dr. Ahmed Hassan"), "polymer")
  {
    NoMatchByChar("Dr. Ahmed Hassan", "polymer", 0);
  }

  /** No field of pub-1 contains "polymer" in any case. */
  lemma PolymerNotInPub1()
    ensures !PublicationsPage.MatchesSearch(Publication1, "polymer")
  {
    assert ToLower("polymer") == "polymer";
    PolymerNotInPub1Title();
    PolymerNotInSarahChen();
    PolymerNotInEmilyWatson();
    PolymerNotInAhmedHassan();
    PolymerNotInPub1Abstract();
  }
}
