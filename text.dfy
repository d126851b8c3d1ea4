/**
 * Character-level helpers shared by the name splitter and the fragment
 * builder: searching for a character, splitting on a separator and joining
 * with one, together with the facts that make split and join inverses.
 */
module Text {
  import opened Optional

  /** The first index at or after `from` that holds `c`, if there is one. */
  function Find(s: string, c: char, from: nat): (r: Option<nat>)
    requires from <= |s|
    ensures r.Some? ==> from <= r.value < |s| && s[r.value] == c
    ensures r.Some? ==> forall k :: from <= k < r.value ==> s[k] != c
    ensures r.None? ==> forall k :: from <= k < |s| ==> s[k] != c
    decreases |s| - from
  {
    if from == |s| then None
    else if s[from] == c then Some(from)
    else Find(s, c, from + 1)
  }

  /**
   * The pieces of `s` between occurrences of `sep`, empty pieces included:
   * there is always one more piece than there are separators.
   */
  function Split(s: string, sep: char): (parts: seq<string>)
    ensures |parts| >= 1
    ensures forall k :: 0 <= k < |parts| ==> sep !in parts[k]
    decreases |s|
  {
    match Find(s, sep, 0)
    case None => [s]
    case Some(i) => [s[..i]] + Split(s[i + 1..], sep)
  }

  /** The pieces, with one `sep` between each two neighbours. */
  function Join(parts: seq<string>, sep: char): string
  {
    if |parts| == 0 then ""
    else if |parts| == 1 then parts[0]
    else parts[0] + [sep] + Join(parts[1..], sep)
  }

  /** Joining is associative across a cut of the list into two non-empty halves. */
  lemma {:induction false} JoinAppend(a: seq<string>, b: seq<string>, sep: char)
    requires |a| >= 1 && |b| >= 1
    ensures Join(a + b, sep) == Join(a, sep) + [sep] + Join(b, sep)
  {
    if |a| == 1 {
      assert a + b == [a[0]] + b;
    } else {
      assert (a + b)[1..] == a[1..] + b;
      JoinAppend(a[1..], b, sep);
    }
  }

  /** Joining the pieces of a split gives back the original text. */
  lemma {:induction false} JoinSplit(s: string, sep: char)
    ensures Join(Split(s, sep), sep) == s
    decreases |s|
  {
    match Find(s, sep, 0)
    case None =>
    case Some(i) =>
      JoinSplit(s[i + 1..], sep);
      assert s == s[..i] + [sep] + s[i + 1..];
  }

  /** Splitting a join gives back the pieces, when no piece holds the separator. */
  lemma {:induction false} SplitJoin(parts: seq<string>, sep: char)
    requires |parts| >= 1
    requires forall k :: 0 <= k < |parts| ==> sep !in parts[k]
    ensures Split(Join(parts, sep), sep) == parts
    decreases |parts|
  {
    var s := Join(parts, sep);
    var p := parts[0];
    if |parts| == 1 {
      assert forall k :: 0 <= k < |s| ==> s[k] in p;
    } else {
      var rest := Join(parts[1..], sep);
      assert s == p + [sep] + rest;
      assert s[|p|] == sep;
      assert forall k :: 0 <= k < |p| ==> s[k] == p[k] && p[k] in p;
      assert Find(s, sep, 0) == Some(|p|);
      assert s[..|p|] == p && s[|p| + 1..] == rest;
      SplitJoin(parts[1..], sep);
    }
  }

  /** The non-empty strings of `parts`, in order. */
  function NonEmpty(parts: seq<string>): (r: seq<string>)
    ensures |r| <= |parts|
    ensures forall k :: 0 <= k < |r| ==> r[k] != [] && r[k] in parts
    ensures (forall k :: 0 <= k < |parts| ==> parts[k] != []) ==> r == parts
  {
    if |parts| == 0 then []
    else if parts[0] == [] then NonEmpty(parts[1..])
    else [parts[0]] + NonEmpty(parts[1..])
  }

  /** The words of `s`: the maximal runs of characters other than a space. */
  function Words(s: string): (ws: seq<string>)
    ensures forall k :: 0 <= k < |ws| ==> ws[k] != [] && ' ' !in ws[k]
  {
    NonEmpty(Split(s, ' '))
  }

  /** Text without a leading, trailing or doubled space. */
  predicate WellSpaced(s: string)
  {
    (|s| > 0 ==> s[0] != ' ' && s[|s| - 1] != ' ') &&
    forall k :: 0 <= k < |s| - 1 ==> !(s[k] == ' ' && s[k + 1] == ' ')
  }

  /** Every piece of a well-spaced, non-empty text split on spaces is a word. */
  lemma {:induction false} WellSpacedPieces(s: string)
    requires s != [] && WellSpaced(s)
    ensures forall k :: 0 <= k < |Split(s, ' ')| ==> Split(s, ' ')[k] != []
    decreases |s|
  {
    match Find(s, ' ', 0)
    case None =>
    case Some(i) =>
      var t := s[i + 1..];
      assert i > 0;
      assert i < |s| - 1;
      assert t[0] == s[i + 1] != ' ';
      WellSpacedPieces(t);
  }

  /** Joining the words of a well-spaced text with single spaces gives back the text. */
  lemma {:induction false} UnwordsWords(s: string)
    requires WellSpaced(s)
    ensures Join(Words(s), ' ') == s
  {
    if s == [] {
      assert Split(s, ' ') == [[]];
      assert Words(s) == [];
    } else {
      WellSpacedPieces(s);
      JoinSplit(s, ' ');
    }
  }

  /** A character absent from the text is absent from every piece of its split. */
  lemma {:induction false} SplitKeepsOut(s: string, sep: char, c: char)
    requires c !in s
    ensures forall k :: 0 <= k < |Split(s, sep)| ==> c !in Split(s, sep)[k]
    decreases |s|
  {
    match Find(s, sep, 0)
    case None =>
    case Some(i) =>
      assert forall x :: x in s[..i] ==> x in s;
      assert forall x :: x in s[i + 1..] ==> x in s;
      SplitKeepsOut(s[i + 1..], sep, c);
  }

  /** A character other than the separator, absent from every piece, is absent from their join. */
  lemma {:induction false} JoinKeepsOut(parts: seq<string>, sep: char, c: char)
    requires c != sep
    requires forall k :: 0 <= k < |parts| ==> c !in parts[k]
    ensures c !in Join(parts, sep)
    decreases |parts|
  {
    if |parts| > 1 {
      JoinKeepsOut(parts[1..], sep, c);
    }
  }

  /** A character other than a space, absent from the text, is absent from every run of its words rejoined. */
  lemma WordsKeepOut(s: string, c: char, a: nat, b: nat)
    requires c !in s && c != ' '
    requires a <= b <= |Words(s)|
    ensures c !in Join(Words(s)[a..b], ' ')
  {
    SplitKeepsOut(s, ' ', c);
    var run := Words(s)[a..b];
    assert forall k :: 0 <= k < |run| ==> run[k] in Split(s, ' ');
    JoinKeepsOut(run, ' ', c);
  }
}
