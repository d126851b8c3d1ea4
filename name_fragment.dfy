/**
 * Building the GEDCOM text of one new NAME record: a level-1 NAME line, a
 * level-2 TYPE line, then level-2 SPFX and SURN lines for the values that
 * are not empty, joined by newlines with none at the end.
 */
module NameFragment {
  import opened Text

  /** The value of the TYPE line of a new name. */
  datatype NameType = Birth | Married

  function TypeValue(t: NameType): (v: string)
    ensures v != [] && '\n' !in v
  {
    match t
    case Birth => "BIRTH"
    case Married => "MARRIED"
  }

  /** `gedcom` followed by the level-2 line `tag value`, or `gedcom` unchanged when `value` is empty. */
  function AppendLine(gedcom: string, tag: string, value: string): string
  {
    if value != "" then gedcom + "\n2 " + tag + " " + value else gedcom
  }

  /** The fragment for the NAME value `name`: a TYPE line, then SPFX and SURN lines for non-empty values. */
  function BuildName(name: string, t: NameType, spfx: string, surn: string): (g: string)
    ensures "1 NAME " + name + "\n2 TYPE " + TypeValue(t) <= g
  {
    var typed := AppendLine("1 NAME " + name, "TYPE", TypeValue(t));
    assert typed == "1 NAME " + name + "\n2 TYPE " + TypeValue(t);
    AppendLineExtends(typed, "SPFX", spfx);
    var prefixed := AppendLine(typed, "SPFX", spfx);
    AppendLineExtends(prefixed, "SURN", surn);
    AppendLine(prefixed, "SURN", surn)
  }

  /** Appending a line keeps the text before it. */
  lemma AppendLineExtends(gedcom: string, tag: string, value: string)
    ensures gedcom <= AppendLine(gedcom, tag, value)
  {
  }

  /** The lines a fragment must consist of, in order. */
  function FragmentLines(name: string, t: NameType, spfx: string, surn: string): seq<string>
  {
    ["1 NAME " + name, SubLine("TYPE", TypeValue(t))]
      + (if spfx != "" then [SubLine("SPFX", spfx)] else [])
      + (if surn != "" then [SubLine("SURN", surn)] else [])
  }

  /** The level-2 line `tag value`. */
  function SubLine(tag: string, value: string): string
  {
    "2 " + tag + " " + value
  }

  /** Appending a line to joined text is joining with one more line. */
  lemma AppendLineJoin(lines: seq<string>, tag: string, value: string)
    requires |lines| >= 1
    ensures Join(lines + (if value != "" then [SubLine(tag, value)] else []), '\n')
         == AppendLine(Join(lines, '\n'), tag, value)
  {
    if value != "" {
      var text := Join(lines, '\n');
      JoinAppend(lines, [SubLine(tag, value)], '\n');
      assert Join([SubLine(tag, value)], '\n') == SubLine(tag, value);
      Reassociate(text, tag, value);
    } else {
      assert lines + [] == lines;
    }
  }

  lemma Reassociate(text: string, tag: string, value: string)
    ensures text + "\n2 " + tag + " " + value == text + ['\n'] + SubLine(tag, value)
  {
    assert "\n2 " == ['\n'] + "2 ";
  }

  /** A fragment is its lines joined by newlines. */
  lemma BuildNameJoinsLines(name: string, t: NameType, spfx: string, surn: string)
    ensures Join(FragmentLines(name, t, spfx, surn), '\n') == BuildName(name, t, spfx, surn)
  {
    var l0 := ["1 NAME " + name];
    var l1 := l0 + [SubLine("TYPE", TypeValue(t))];
    var l2 := l1 + (if spfx != "" then [SubLine("SPFX", spfx)] else []);
    var l3 := l2 + (if surn != "" then [SubLine("SURN", surn)] else []);
    AppendLineJoin(l0, "TYPE", TypeValue(t));
    AppendLineJoin(l1, "SPFX", spfx);
    AppendLineJoin(l2, "SURN", surn);
    assert l3 == FragmentLines(name, t, spfx, surn);
  }

  /** A line tag followed by a value without newlines holds no newline. */
  lemma NoNewline(tag: string, value: string)
    requires '\n' !in tag && '\n' !in value
    ensures '\n' !in tag + value
  {
    assert forall k :: 0 <= k < |tag + value| ==> (tag + value)[k] in tag || (tag + value)[k] in value;
  }

  /**
   * Read line by line, a fragment is its NAME line, its TYPE line, an SPFX line
   * exactly when the prefix is non-empty and a SURN line exactly when the
   * surname is non-empty, in that order, and it does not end in a newline.
   */
  lemma BuildNameLines(name: string, t: NameType, spfx: string, surn: string)
    requires '\n' !in name && '\n' !in spfx && '\n' !in surn
    ensures Split(BuildName(name, t, spfx, surn), '\n') == FragmentLines(name, t, spfx, surn)
    ensures var g := BuildName(name, t, spfx, surn); g[|g| - 1] != '\n'
  {
    var lines := FragmentLines(name, t, spfx, surn);
    NoNewline("1 NAME ", name);
    NoNewline("2 TYPE ", TypeValue(t));
    NoNewline("2 SPFX ", spfx);
    NoNewline("2 SURN ", surn);
    assert SubLine("TYPE", TypeValue(t)) == "2 TYPE " + TypeValue(t);
    assert SubLine("SPFX", spfx) == "2 SPFX " + spfx;
    assert SubLine("SURN", surn) == "2 SURN " + surn;
    assert forall k :: 0 <= k < |lines| ==> '\n' !in lines[k];
    BuildNameJoinsLines(name, t, spfx, surn);
    SplitJoin(lines, '\n');
  }
}
