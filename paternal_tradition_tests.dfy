/**
 * The asserted behaviour of the paternal surname tradition, case by case:
 * each `Test...` lemma states, for every particle set holding the particles
 * the cases use (and no particle with an upper-case letter), the exact
 * fragments returned for the names and sex codes of one test case.
 */
module PaternalTraditionTests {
  import opened Optional
  import opened Text
  import opened SurnameSplit
  import opened NameFragment
  import opened PaternalTradition

  // ---- The brackets the cases use, split -----------------------------------

  /** The words of `White` begin with no particle. */
  lemma CountWhite(particles: set<string>)
    requires TestParticles() <= particles && NoCapitalParticles(particles)
    ensures LongestParticle(particles, ["White"], 1) == 0
  {
    var words := ["White"];
    assert words[..1] == words && Join(words, ' ') == "White";
    NotAParticle(particles, "White", 0);
  }

  /** A name whose bracket is `/White/` splits into no prefix and the surname `White`. */
  lemma SplitWhite(particles: set<string>, given: string, raw: string)
    requires LongestParticle(particles, ["White"], 1) == 0
    requires '/' !in given && raw == given + "/" + "White" + "/"
    ensures SplitSurname(particles, raw) == Some(Surname("/White/", "", "White"))
  {
    var words := ["White"];
    assert Join(words, ' ') == "White";
    assert Join(words[..0], ' ') == "" && Join(words[0..], ' ') == "White";
    SlashedWhite();
    SplitKnownWords(particles, given, raw, words, 0, "White", "", "White");
  }

  /** The bracket `/White/` is its content between two slashes. */
  lemma SlashedWhite()
    ensures "/" + "White" + "/" == "/White/"
  {
  }

  /** The longest particle the words of `de White` begin with is `de`. */
  lemma CountDeWhite(particles: set<string>)
    requires TestParticles() <= particles && NoCapitalParticles(particles)
    ensures LongestParticle(particles, ["de", "White"], 2) == 1
  {
    var words := ["de", "White"];
    assert words[..2] == words && Join(words, ' ') == "de White";
    NotAParticle(particles, "de White", 3);
    assert words[..1] == ["de"] && Join(words[..1], ' ') == "de";
  }

  /** A name whose bracket is `/de White/` splits into the prefix `de` and the surname `White`. */
  lemma SplitDeWhite(particles: set<string>, given: string, raw: string)
    requires LongestParticle(particles, ["de", "White"], 2) == 1
    requires '/' !in given && raw == given + "/" + "de White" + "/"
    ensures SplitSurname(particles, raw) == Some(Surname("/de White/", "de", "White"))
  {
    var words := ["de", "White"];
    assert Join(words, ' ') == "de White";
    assert Join(words[..1], ' ') == "de" && Join(words[1..], ' ') == "White";
    SlashedDeWhite();
    SplitKnownWords(particles, given, raw, words, 1, "de White", "de", "White");
  }

  /** The bracket `/de White/` is its content between two slashes. */
  lemma SlashedDeWhite()
    ensures "/" + "de White" + "/" == "/de White/"
  {
  }

  /** The longest particle the words of `van der White` begin with is `van der`. */
  lemma CountVanDerWhite(particles: set<string>)
    requires TestParticles() <= particles && NoCapitalParticles(particles)
    ensures LongestParticle(particles, ["van", "der", "White"], 3) == 2
  {
    var words := ["van", "der", "White"];
    assert words[..3] == words && Join(words, ' ') == "van der White";
    NotAParticle(particles, "van der White", 8);
    assert words[..2] == ["van", "der"] && Join(words[..2], ' ') == "van der";
  }

  /** A name whose bracket is `/van der White/` splits into the prefix `van der` and the surname `White`. */
  lemma SplitVanDerWhite(particles: set<string>, given: string, raw: string)
    requires LongestParticle(particles, ["van", "der", "White"], 3) == 2
    requires '/' !in given && raw == given + "/" + "van der White" + "/"
    ensures SplitSurname(particles, raw) == Some(Surname("/van der White/", "van der", "White"))
  {
    var words := ["van", "der", "White"];
    assert Join(words, ' ') == "van der White";
    assert Join(words[..2], ' ') == "van der" && Join(words[2..], ' ') == "White";
    SlashedVanDerWhite();
    SplitKnownWords(particles, given, raw, words, 2, "van der White", "van der", "White");
  }

  /** The bracket `/van der White/` is its content between two slashes. */
  lemma SlashedVanDerWhite()
    ensures "/" + "van der White" + "/" == "/van der White/"
  {
  }

  /** The longest particle the words of `'t White` begin with is `'t`. */
  lemma CountTWhite(particles: set<string>)
    requires TestParticles() <= particles && NoCapitalParticles(particles)
    ensures LongestParticle(particles, ["'t", "White"], 2) == 1
  {
    var words := ["'t", "White"];
    assert words[..2] == words && Join(words, ' ') == "'t White";
    NotAParticle(particles, "'t White", 3);
    assert words[..1] == ["'t"] && Join(words[..1], ' ') == "'t";
  }

  /** A name whose bracket is `/'t White/` splits into the prefix `'t` and the surname `White`. */
  lemma SplitTWhite(particles: set<string>, given: string, raw: string)
    requires LongestParticle(particles, ["'t", "White"], 2) == 1
    requires '/' !in given && raw == given + "/" + "'t White" + "/"
    ensures SplitSurname(particles, raw) == Some(Surname("/'t White/", "'t", "White"))
  {
    var words := ["'t", "White"];
    assert Join(words, ' ') == "'t White";
    assert Join(words[..1], ' ') == "'t" && Join(words[1..], ' ') == "White";
    SlashedTWhite();
    SplitKnownWords(particles, given, raw, words, 1, "'t White", "'t", "White");
  }

  /** The bracket `/'t White/` is its content between two slashes. */
  lemma SlashedTWhite()
    ensures "/" + "'t White" + "/" == "/'t White/"
  {
  }

  /** The longest particle the words of `van 't White` begin with is `van 't`. */
  lemma CountVanTWhite(particles: set<string>)
    requires TestParticles() <= particles && NoCapitalParticles(particles)
    ensures LongestParticle(particles, ["van", "'t", "White"], 3) == 2
  {
    var words := ["van", "'t", "White"];
    assert words[..3] == words && Join(words, ' ') == "van 't White";
    NotAParticle(particles, "van 't White", 7);
    assert words[..2] == ["van", "'t"] && Join(words[..2], ' ') == "van 't";
  }

  /** A name whose bracket is `/van 't White/` splits into the prefix `van 't` and the surname `White`. */
  lemma SplitVanTWhite(particles: set<string>, given: string, raw: string)
    requires LongestParticle(particles, ["van", "'t", "White"], 3) == 2
    requires '/' !in given && raw == given + "/" + "van 't White" + "/"
    ensures SplitSurname(particles, raw) == Some(Surname("/van 't White/", "van 't", "White"))
  {
    var words := ["van", "'t", "White"];
    assert Join(words, ' ') == "van 't White";
    assert Join(words[..2], ' ') == "van 't" && Join(words[2..], ' ') == "White";
    SlashedVanTWhite();
    SplitKnownWords(particles, given, raw, words, 2, "van 't White", "van 't", "White");
  }

  /** The bracket `/van 't White/` is its content between two slashes. */
  lemma SlashedVanTWhite()
    ensures "/" + "van 't White" + "/" == "/van 't White/"
  {
  }

  // ---- The fragments the cases expect, byte for byte --------------------

  /** The BIRTH fragment for the bracket `/White/`, line by line. */
  lemma FragmentWhiteBirth()
    ensures NameFor(Surname("/White/", "", "White"), Birth) == "1 NAME /White/\n2 TYPE BIRTH\n2 SURN White"
  {
    var g0 := "1 NAME " + "/White/";
    assert g0 == "1 NAME /White/";
    var g1 := AppendLine(g0, "TYPE", "BIRTH");
    assert g1 == "1 NAME /White/\n2 TYPE BIRTH";
    assert AppendLine(g1, "SPFX", "") == g1;
    var g2 := AppendLine(g1, "SURN", "White");
    assert g2 == "1 NAME /White/\n2 TYPE BIRTH\n2 SURN White";
  }

  /** The BIRTH fragment for the bracket `/de White/`, line by line. */
  lemma FragmentDeWhiteBirth()
    ensures NameFor(Surname("/de White/", "de", "White"), Birth) == "1 NAME /de White/\n2 TYPE BIRTH\n2 SPFX de\n2 SURN White"
  {
    var g0 := "1 NAME " + "/de White/";
    assert g0 == "1 NAME /de White/";
    var g1 := AppendLine(g0, "TYPE", "BIRTH");
    assert g1 == "1 NAME /de White/\n2 TYPE BIRTH";
    var g2 := AppendLine(g1, "SPFX", "de");
    assert g2 == "1 NAME /de White/\n2 TYPE BIRTH\n2 SPFX de";
    var g3 := AppendLine(g2, "SURN", "White");
    assert g3 == "1 NAME /de White/\n2 TYPE BIRTH\n2 SPFX de\n2 SURN White";
  }

  /** The BIRTH fragment for the bracket `/van der White/`, line by line. */
  lemma FragmentVanDerWhiteBirth()
    ensures NameFor(Surname("/van der White/", "van der", "White"), Birth) == "1 NAME /van der White/\n2 TYPE BIRTH\n2 SPFX van der\n2 SURN White"
  {
    var g0 := "1 NAME " + "/van der White/";
    assert g0 == "1 NAME /van der White/";
    var g1 := AppendLine(g0, "TYPE", "BIRTH");
    assert g1 == "1 NAME /van der White/\n2 TYPE BIRTH";
    var g2 := AppendLine(g1, "SPFX", "van der");
    assert g2 == "1 NAME /van der White/\n2 TYPE BIRTH\n2 SPFX van der";
    var g3 := AppendLine(g2, "SURN", "White");
    assert g3 == "1 NAME /van der White/\n2 TYPE BIRTH\n2 SPFX van der\n2 SURN White";
  }

  /** The BIRTH fragment for the bracket `/'t White/`, line by line. */
  lemma FragmentTWhiteBirth()
    ensures NameFor(Surname("/'t White/", "'t", "White"), Birth) == "1 NAME /'t White/\n2 TYPE BIRTH\n2 SPFX 't\n2 SURN White"
  {
    var g0 := "1 NAME " + "/'t White/";
    assert g0 == "1 NAME /'t White/";
    var g1 := AppendLine(g0, "TYPE", "BIRTH");
    assert g1 == "1 NAME /'t White/\n2 TYPE BIRTH";
    var g2 := AppendLine(g1, "SPFX", "'t");
    assert g2 == "1 NAME /'t White/\n2 TYPE BIRTH\n2 SPFX 't";
    var g3 := AppendLine(g2, "SURN", "White");
    assert g3 == "1 NAME /'t White/\n2 TYPE BIRTH\n2 SPFX 't\n2 SURN White";
  }

  /** The BIRTH fragment for the bracket `/van 't White/`, line by line. */
  lemma FragmentVanTWhiteBirth()
    ensures NameFor(Surname("/van 't White/", "van 't", "White"), Birth) == "1 NAME /van 't White/\n2 TYPE BIRTH\n2 SPFX van 't\n2 SURN White"
  {
    var g0 := "1 NAME " + "/van 't White/";
    assert g0 == "1 NAME /van 't White/";
    var g1 := AppendLine(g0, "TYPE", "BIRTH");
    assert g1 == "1 NAME /van 't White/\n2 TYPE BIRTH";
    var g2 := AppendLine(g1, "SPFX", "van 't");
    assert g2 == "1 NAME /van 't White/\n2 TYPE BIRTH\n2 SPFX van 't";
    var g3 := AppendLine(g2, "SURN", "White");
    assert g3 == "1 NAME /van 't White/\n2 TYPE BIRTH\n2 SPFX van 't\n2 SURN White";
  }

  /** The MARRIED fragment for the bracket `/White/`, line by line. */
  lemma FragmentWhiteMarried()
    ensures NameFor(Surname("/White/", "", "White"), Married) == "1 NAME /White/\n2 TYPE MARRIED\n2 SURN White"
  {
    var g0 := "1 NAME " + "/White/";
    assert g0 == "1 NAME /White/";
    var g1 := AppendLine(g0, "TYPE", "MARRIED");
    assert g1 == "1 NAME /White/\n2 TYPE MARRIED";
    assert AppendLine(g1, "SPFX", "") == g1;
    var g2 := AppendLine(g1, "SURN", "White");
    assert g2 == "1 NAME /White/\n2 TYPE MARRIED\n2 SURN White";
  }

  /** The MARRIED fragment for the bracket `/van der White/`, line by line. */
  lemma FragmentVanDerWhiteMarried()
    ensures NameFor(Surname("/van der White/", "van der", "White"), Married) == "1 NAME /van der White/\n2 TYPE MARRIED\n2 SPFX van der\n2 SURN White"
  {
    var g0 := "1 NAME " + "/van der White/";
    assert g0 == "1 NAME /van der White/";
    var g1 := AppendLine(g0, "TYPE", "MARRIED");
    assert g1 == "1 NAME /van der White/\n2 TYPE MARRIED";
    var g2 := AppendLine(g1, "SPFX", "van der");
    assert g2 == "1 NAME /van der White/\n2 TYPE MARRIED\n2 SPFX van der";
    var g3 := AppendLine(g2, "SURN", "White");
    assert g3 == "1 NAME /van der White/\n2 TYPE MARRIED\n2 SPFX van der\n2 SURN White";
  }

  // ---- The raw names the cases use, as given name and bracket ------------

  /** `John /White/` is the given name `John` and a space, then the bracket. */
  lemma RawJohnWhite()
    ensures "John " + "/" + "White" + "/" == "John /White/"
  {
  }

  /** `John /de White/` is the given name `John` and a space, then the bracket. */
  lemma RawJohnDeWhite()
    ensures "John " + "/" + "de White" + "/" == "John /de White/"
  {
  }

  /** `John /van der White/` is the given name `John` and a space, then the bracket. */
  lemma RawJohnVanDerWhite()
    ensures "John " + "/" + "van der White" + "/" == "John /van der White/"
  {
  }

  /** `John /'t White/` is the given name `John` and a space, then the bracket. */
  lemma RawJohnTWhite()
    ensures "John " + "/" + "'t White" + "/" == "John /'t White/"
  {
  }

  /** `John /van 't White/` is the given name `John` and a space, then the bracket. */
  lemma RawJohnVanTWhite()
    ensures "John " + "/" + "van 't White" + "/" == "John /van 't White/"
  {
  }

  /** `Chris /White/` is the given name `Chris` and a space, then the bracket. */
  lemma RawChrisWhite()
    ensures "Chris " + "/" + "White" + "/" == "Chris /White/"
  {
  }

  /** `Chris /van der White/` is the given name `Chris` and a space, then the bracket. */
  lemma RawChrisVanDerWhite()
    ensures "Chris " + "/" + "van der White" + "/" == "Chris /van der White/"
  {
  }

  // ---- The cases ------------------------------------------------------------

  /** The default name is the empty bracket. */
  lemma TestSurnames()
    ensures DefaultName() == "//"
  {
  }

  /** A child of any sex takes the father's name, as a BIRTH name without prefix; the mother's plays no part. */
  lemma TestNewChildNames(particles: set<string>, father: string, mother: string)
    requires TestParticles() <= particles && NoCapitalParticles(particles)
    requires father == "John /White/" && mother == "Mary /Black/"
    ensures NewChildNames(particles, Some(father), Some(mother), M) == ["1 NAME /White/\n2 TYPE BIRTH\n2 SURN White"]
    ensures NewChildNames(particles, Some(father), Some(mother), F) == ["1 NAME /White/\n2 TYPE BIRTH\n2 SURN White"]
    ensures NewChildNames(particles, Some(father), Some(mother), U) == ["1 NAME /White/\n2 TYPE BIRTH\n2 SURN White"]
  {
    RawJohnWhite();
    CountWhite(particles);
    SplitWhite(particles, "John ", father);
    FragmentWhiteBirth();
    assert NewChildNames(particles, Some(father), Some(mother), U) == ["1 NAME /White/\n2 TYPE BIRTH\n2 SURN White"];
    ChildNamesIgnoreMotherAndSex(particles, Some(father), Some(mother), Some(mother), M, U);
    ChildNamesIgnoreMotherAndSex(particles, Some(father), Some(mother), Some(mother), F, U);
  }

  /** A single-word prefix `de` of the father's surname becomes the child's SPFX line. */
  lemma TestNewChildNamesWithSpfx(particles: set<string>, father: string, mother: string)
    requires TestParticles() <= particles && NoCapitalParticles(particles)
    requires father == "John /de White/" && mother == "Mary /van Black/"
    ensures NewChildNames(particles, Some(father), Some(mother), U) == ["1 NAME /de White/\n2 TYPE BIRTH\n2 SPFX de\n2 SURN White"]
  {
    RawJohnDeWhite();
    CountDeWhite(particles);
    SplitDeWhite(particles, "John ", father);
    FragmentDeWhiteBirth();
  }

  /** A two-word prefix `van der` is split off whole. */
  lemma TestNewChildNamesWithMultipleSpfx(particles: set<string>, father: string, mother: string)
    requires TestParticles() <= particles && NoCapitalParticles(particles)
    requires father == "John /van der White/" && mother == "Mary /van Black/"
    ensures NewChildNames(particles, Some(father), Some(mother), U) == ["1 NAME /van der White/\n2 TYPE BIRTH\n2 SPFX van der\n2 SURN White"]
  {
    RawJohnVanDerWhite();
    CountVanDerWhite(particles);
    SplitVanDerWhite(particles, "John ", father);
    FragmentVanDerWhiteBirth();
  }

  /** The prefix `'t` is split off like any other. */
  lemma TestNewChildNamesWithDutchSpfx(particles: set<string>, father: string, mother: string)
    requires TestParticles() <= particles && NoCapitalParticles(particles)
    requires father == "John /'t White/" && mother == "Mary /van Black/"
    ensures NewChildNames(particles, Some(father), Some(mother), U) == ["1 NAME /'t White/\n2 TYPE BIRTH\n2 SPFX 't\n2 SURN White"]
  {
    RawJohnTWhite();
    CountTWhite(particles);
    SplitTWhite(particles, "John ", father);
    FragmentTWhiteBirth();
  }

  /** The two-word prefix `van 't` is split off whole. */
  lemma TestNewChildNamesWithMultipleDutchSpfx(particles: set<string>, father: string, mother: string)
    requires TestParticles() <= particles && NoCapitalParticles(particles)
    requires father == "John /van 't White/" && mother == "Mary /van Black/"
    ensures NewChildNames(particles, Some(father), Some(mother), U) == ["1 NAME /van 't White/\n2 TYPE BIRTH\n2 SPFX van 't\n2 SURN White"]
  {
    RawJohnVanTWhite();
    CountVanTWhite(particles);
    SplitVanTWhite(particles, "John ", father);
    FragmentVanTWhiteBirth();
  }

  /** A new father takes the child's surname as his BIRTH name. */
  lemma TestNewFatherNames(particles: set<string>, individual: string)
    requires TestParticles() <= particles && NoCapitalParticles(particles)
    requires individual == "Chris /White/"
    ensures NewParentNames(particles, individual, M) == ["1 NAME /White/\n2 TYPE BIRTH\n2 SURN White"]
  {
    RawChrisWhite();
    CountWhite(particles);
    SplitWhite(particles, "Chris ", individual);
    FragmentWhiteBirth();
  }

  /** A new mother gets a blank BIRTH name and the child's surname as her MARRIED name. */
  lemma TestNewMotherNames(particles: set<string>, individual: string)
    requires TestParticles() <= particles && NoCapitalParticles(particles)
    requires individual == "Chris /White/"
    ensures NewParentNames(particles, individual, F) == ["1 NAME //\n2 TYPE BIRTH", "1 NAME /White/\n2 TYPE MARRIED\n2 SURN White"]
  {
    RawChrisWhite();
    CountWhite(particles);
    SplitWhite(particles, "Chris ", individual);
    FragmentWhiteMarried();
    BlankNameText();
  }

  /** A new parent of unknown sex gets only a blank BIRTH name. */
  lemma TestNewParentNames(particles: set<string>, individual: string)
    requires TestParticles() <= particles && NoCapitalParticles(particles)
    requires individual == "Chris /White/"
    ensures NewParentNames(particles, individual, U) == ["1 NAME //\n2 TYPE BIRTH"]
  {
    RawChrisWhite();
    CountWhite(particles);
    SplitWhite(particles, "Chris ", individual);
    BlankNameText();
  }

  /** A new husband gets only a blank BIRTH name. */
  lemma TestNewHusbandNames(particles: set<string>, individual: string)
    requires TestParticles() <= particles && NoCapitalParticles(particles)
    requires individual == "Chris /White/"
    ensures NewSpouseNames(particles, individual, M) == ["1 NAME //\n2 TYPE BIRTH"]
  {
    RawChrisWhite();
    CountWhite(particles);
    SplitWhite(particles, "Chris ", individual);
    BlankNameText();
  }

  /** A new wife gets a blank BIRTH name and her husband's surname as her MARRIED name. */
  lemma TestNewWifeNames(particles: set<string>, individual: string)
    requires TestParticles() <= particles && NoCapitalParticles(particles)
    requires individual == "Chris /White/"
    ensures NewSpouseNames(particles, individual, F) == ["1 NAME //\n2 TYPE BIRTH", "1 NAME /White/\n2 TYPE MARRIED\n2 SURN White"]
  {
    RawChrisWhite();
    CountWhite(particles);
    SplitWhite(particles, "Chris ", individual);
    FragmentWhiteMarried();
    BlankNameText();
  }

  /** A new wife's MARRIED name keeps the husband's prefix as its SPFX line. */
  lemma TestNewWifeNamesWithSpfx(particles: set<string>, individual: string)
    requires TestParticles() <= particles && NoCapitalParticles(particles)
    requires individual == "Chris /van der White/"
    ensures NewSpouseNames(particles, individual, F) == ["1 NAME //\n2 TYPE BIRTH", "1 NAME /van der White/\n2 TYPE MARRIED\n2 SPFX van der\n2 SURN White"]
  {
    RawChrisVanDerWhite();
    CountVanDerWhite(particles);
    SplitVanDerWhite(particles, "Chris ", individual);
    FragmentVanDerWhiteMarried();
    BlankNameText();
  }

  /** A new spouse of unknown sex gets only a blank BIRTH name. */
  lemma TestNewSpouseNames(particles: set<string>, individual: string)
    requires TestParticles() <= particles && NoCapitalParticles(particles)
    requires individual == "Chris /White/"
    ensures NewSpouseNames(particles, individual, U) == ["1 NAME //\n2 TYPE BIRTH"]
  {
    RawChrisWhite();
    CountWhite(particles);
    SplitWhite(particles, "Chris ", individual);
    BlankNameText();
  }
}
