/**
 * The paternal surname tradition: children take their father's surname, a
 * wife takes her husband's surname at marriage, and a mother's birth
 * surname is unknown while her married surname is her child's.
 *
 * Each operation returns the ordered list of GEDCOM NAME fragments for the
 * new relative. Relatives are given by the raw NAME value of their birth name.
 */
module PaternalTradition {
  import opened Optional
  import opened Text
  import opened SurnameSplit
  import opened NameFragment

  /** The sex codes M, F and U. */
  datatype Sex = M | F | U

  /** The placeholder NAME value when nothing is known: an empty given name and an empty surname. */
  function DefaultName(): (n: string)
    ensures Bracket(n) == Some((0, |n| - 1))
  {
    "//"
  }

  /** The fragment for a name of which nothing is known. */
  function BlankName(): string
  {
    BuildName("//", Birth, "", "")
  }

  /** The fragment carrying the surname parts of `n`, with the given TYPE. */
  function NameFor(n: Surname, t: NameType): string
  {
    BuildName(n.bracket, t, n.spfx, n.surn)
  }

  /** The surname parts of an optional relative's name. */
  function RelativeSurname(particles: set<string>, relative: Option<string>): Option<Surname>
  {
    match relative
    case None => None
    case Some(raw) => SplitSurname(particles, raw)
  }

  /** Names for a new child: one BIRTH name with the father's surname, whatever the mother and the sex. */
  function NewChildNames(particles: set<string>, father: Option<string>, mother: Option<string>, sex: Sex): (names: seq<string>)
    ensures |names| == 1
  {
    match RelativeSurname(particles, father)
    case Some(n) => [NameFor(n, Birth)]
    case None => [BlankName()]
  }

  /**
   * Names for a new parent of `child`: a father shares the child's surname; a
   * mother has an unknown birth name and the child's surname as her married
   * name; a parent of unknown sex has an unknown name.
   */
  function NewParentNames(particles: set<string>, child: string, sex: Sex): (names: seq<string>)
    ensures |names| == if sex == F && SplitSurname(particles, child).Some? then 2 else 1
  {
    match SplitSurname(particles, child)
    case Some(n) =>
      (match sex
       case M => [NameFor(n, Birth)]
       case F => [BlankName(), NameFor(n, Married)]
       case U => [BlankName()])
    case None => [BlankName()]
  }

  /**
   * Names for a new spouse of `individual`: a wife has an unknown birth name
   * and the individual's surname as her married name; a husband or a spouse
   * of unknown sex has an unknown name.
   */
  function NewSpouseNames(particles: set<string>, individual: string, sex: Sex): (names: seq<string>)
    ensures |names| == if sex == F && SplitSurname(particles, individual).Some? then 2 else 1
  {
    match SplitSurname(particles, individual)
    case Some(n) =>
      if sex == F then [BlankName(), NameFor(n, Married)] else [BlankName()]
    case None => [BlankName()]
  }

  // ---- Properties --------------------------------------------------------

  /** The blank fragment is a NAME line with empty slashes and a BIRTH TYPE line, nothing else. */
  lemma BlankNameText()
    ensures BlankName() == "1 NAME //\n2 TYPE BIRTH"
  {
  }

  /** The default name is the "surname unknown" value: it splits into an empty prefix and surname. */
  lemma DefaultNameIsBlank(particles: set<string>)
    ensures SplitSurname(particles, DefaultName()) == Some(Surname("//", "", ""))
    ensures NameFor(Surname("//", "", ""), Birth) == BlankName()
  {
    BracketOfBracket("//");
    assert "//"[1..1] == [];
    assert Split([], ' ') == [[]];
    assert Words([]) == [];
    assert LongestParticle(particles, [], 0) == 0;
    assert "//"[0..2] == "//";
  }

  /** A child's names depend on the father alone: neither the mother nor the child's sex changes them. */
  lemma ChildNamesIgnoreMotherAndSex(particles: set<string>, father: Option<string>,
                                     mother1: Option<string>, mother2: Option<string>, sex1: Sex, sex2: Sex)
    ensures NewChildNames(particles, father, mother1, sex1) == NewChildNames(particles, father, mother2, sex2)
  {
  }

  /**
   * The child's one name is a BIRTH name whose NAME line keeps the father's
   * bracket verbatim, followed by SPFX when the father has a prefix and SURN
   * when he has a surname; with no bracket it is the blank name.
   */
  lemma ChildNameLines(particles: set<string>, father: string, mother: Option<string>, sex: Sex)
    requires '\n' !in father
    ensures var names := NewChildNames(particles, Some(father), mother, sex);
            match SplitSurname(particles, father)
            case Some(n) => Split(names[0], '\n') == FragmentLines(n.bracket, Birth, n.spfx, n.surn)
            case None => names == [BlankName()]
  {
    match SplitSurname(particles, father)
    case Some(n) =>
      SplitSurnameKeepsOut(particles, father, '\n');
      BuildNameLines(n.bracket, Birth, n.spfx, n.surn);
    case None =>
  }

  /**
   * A name without a `/…/` bracket, like a missing father, gives the one
   * blank BIRTH name, whichever operation asks and whatever the sex.
   */
  lemma NoBracketIsBlank(particles: set<string>, raw: string, mother: Option<string>, sex: Sex)
    requires SplitSurname(particles, raw).None?
    ensures NewParentNames(particles, raw, sex) == [BlankName()]
    ensures NewSpouseNames(particles, raw, sex) == [BlankName()]
    ensures NewChildNames(particles, Some(raw), mother, sex) == [BlankName()]
    ensures NewChildNames(particles, None, mother, sex) == [BlankName()]
  {
  }

  /** The father found for a child and the child found for a father carry the same name. */
  lemma FatherAndChildShareName(particles: set<string>, raw: string, mother: Option<string>, sex: Sex)
    ensures NewParentNames(particles, raw, M) == NewChildNames(particles, Some(raw), mother, sex)
  {
  }

  /** A new wife is named exactly like a new mother: unknown birth name, then the married name. */
  lemma WifeNamedLikeMother(particles: set<string>, raw: string)
    ensures NewSpouseNames(particles, raw, F) == NewParentNames(particles, raw, F)
  {
  }

  /** A new husband, spouse of unknown sex and parent of unknown sex each get only the blank name. */
  lemma UnknownNamesAreBlank(particles: set<string>, raw: string)
    ensures NewSpouseNames(particles, raw, M) == [BlankName()]
    ensures NewSpouseNames(particles, raw, U) == [BlankName()]
    ensures NewParentNames(particles, raw, U) == [BlankName()]
  {
  }

  /** The married name of a new mother or wife is the child's or husband's name with TYPE MARRIED. */
  lemma MarriedNameCarriesSurname(particles: set<string>, raw: string)
    requires SplitSurname(particles, raw).Some?
    ensures var n := SplitSurname(particles, raw).value;
            NewParentNames(particles, raw, F) == [BlankName(), NameFor(n, Married)] &&
            NewParentNames(particles, raw, M) == [NameFor(n, Birth)]
  {
  }
}
