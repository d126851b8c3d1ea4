/**
 * Splitting the surname part of a GEDCOM NAME value.
 *
 * A NAME value reads `Given /surname bracket/ rest`. The bracket is the text
 * from the first `/` to the next `/`, both included. Inside it, the longest
 * leading run of words that is a known surname-prefix particle (`de`, `van
 * der`, `'t`, `van 't`, ...) is the SPFX; the words after it are the SURN.
 */
module SurnameSplit {
  import opened Optional
  import opened Text

  /** The surname parts of one name: the bracket verbatim, its prefix and its bare surname. */
  datatype Surname = Surname(bracket: string, spfx: string, surn: string)

  /** Positions of the first `/` and of the next `/` after it, if both exist. */
  function Bracket(raw: string): (r: Option<(nat, nat)>)
    ensures r.Some? ==> r.value.0 < r.value.1 < |raw|
    ensures r.Some? ==> raw[r.value.0] == '/' && raw[r.value.1] == '/'
    ensures r.Some? ==> forall k :: 0 <= k < r.value.1 && k != r.value.0 ==> raw[k] != '/'
  {
    match Find(raw, '/', 0)
    case None => None
    case Some(i) =>
      match Find(raw, '/', i + 1)
      case None => None
      case Some(j) => Some((i, j))
  }

  /** A name has no bracket exactly when it does not hold two slashes. */
  lemma BracketNone(raw: string)
    ensures Bracket(raw).None? <==> forall i, j :: 0 <= i < j < |raw| ==> !(raw[i] == '/' && raw[j] == '/')
  {
  }

  /**
   * The number of leading words (at most `n`) that form the longest particle:
   * the largest count whose space-joined words are in `particles`, or 0.
   */
  function LongestParticle(particles: set<string>, words: seq<string>, n: nat): (count: nat)
    requires n <= |words|
    ensures count <= n
    ensures count > 0 ==> Join(words[..count], ' ') in particles
    ensures forall k :: count < k <= n ==> Join(words[..k], ' ') !in particles
  {
    if n == 0 then 0
    else if Join(words[..n], ' ') in particles then n
    else LongestParticle(particles, words, n - 1)
  }

  /** The surname parts of a raw NAME value, or None when it has no `/…/` bracket. */
  function SplitSurname(particles: set<string>, raw: string): (r: Option<Surname>)
    ensures r.None? <==> Bracket(raw).None?
    ensures r.Some? ==> |r.value.bracket| >= 2 && r.value.bracket[0] == '/' &&
                        r.value.bracket[|r.value.bracket| - 1] == '/'
    ensures r.Some? ==> r.value.spfx == "" || r.value.spfx in particles
    ensures r.Some? ==> '/' !in Content(r.value.bracket)
  {
    match Bracket(raw)
    case None => None
    case Some((i, j)) =>
      Subslices(raw, i, j);
      var content := raw[i + 1..j];
      assert forall k :: 0 <= k < |content| ==> content[k] == raw[k + i + 1] != '/';
      var parts := SplitContent(particles, content);
      Some(Surname(raw[i..j + 1], parts.0, parts.1))
  }

  /** The prefix and the surname in the text of a bracket: the longest leading particle, and the words after it. */
  function SplitContent(particles: set<string>, content: string): (parts: (string, string))
    ensures parts.0 == "" || parts.0 in particles
  {
    var words := Words(content);
    var count := LongestParticle(particles, words, |words|);
    assert count == 0 ==> words[..count] == [];
    (Join(words[..count], ' '), Join(words[count..], ' '))
  }

  /** The text strictly between the two slashes of a bracket. */
  function Content(bracket: string): string
    requires |bracket| >= 2
  {
    bracket[1..|bracket| - 1]
  }

  /** The SPFX and SURN put back together with a single space between them (if both are present). */
  function Rejoin(n: Surname): string
  {
    Unsplit(n.spfx, n.surn)
  }

  /** A prefix and a surname with a single space between them, if both are present. */
  function Unsplit(spfx: string, surn: string): string
  {
    spfx + (if spfx != "" && surn != "" then " " else "") + surn
  }

  /**
   * Round trip: SPFX and SURN, rejoined, are the words of the bracket content;
   * for content without a leading, trailing or doubled space they are the
   * content exactly.
   */
  lemma SplitSurnameRoundTrip(particles: set<string>, raw: string)
    requires SplitSurname(particles, raw).Some?
    ensures var n := SplitSurname(particles, raw).value;
            Rejoin(n) == Join(Words(Content(n.bracket)), ' ') &&
            (WellSpaced(Content(n.bracket)) ==> Rejoin(n) == Content(n.bracket))
  {
    var (i, j) := Bracket(raw).value;
    SplitAtBracket(particles, raw, i, j);
    SplitContentRoundTrip(particles, raw[i + 1..j]);
  }

  /** The round trip on the text of a bracket. */
  lemma SplitContentRoundTrip(particles: set<string>, content: string)
    ensures var parts := SplitContent(particles, content);
            Unsplit(parts.0, parts.1) == Join(Words(content), ' ') &&
            (WellSpaced(content) ==> Unsplit(parts.0, parts.1) == content)
  {
    var words := Words(content);
    var count := LongestParticle(particles, words, |words|);
    assert words == words[..count] + words[count..];
    if 0 < count < |words| {
      JoinAppend(words[..count], words[count..], ' ');
      NonEmptyJoin(words[..count]);
      NonEmptyJoin(words[count..]);
    } else if count == 0 {
      assert words[..count] == [];
      assert words[count..] == words;
    } else {
      assert words[count..] == [];
      assert words[..count] == words;
    }
    if WellSpaced(content) {
      UnwordsWords(content);
    }
  }

  /** Joining a non-empty list of non-empty words gives non-empty text. */
  lemma NonEmptyJoin(words: seq<string>)
    requires |words| >= 1 && words[0] != []
    ensures Join(words, ' ') != []
  {
  }

  /** A bracket on its own is its own bracket. */
  lemma BracketOfBracket(b: string)
    requires |b| >= 2 && b[0] == '/' && b[|b| - 1] == '/' && '/' !in Content(b)
    ensures Bracket(b) == Some((0, |b| - 1))
  {
    assert Find(b, '/', 0) == Some(0);
  }

  /** Splitting the bracket on its own gives the same parts again: the split is idempotent. */
  lemma SplitSurnameIdempotent(particles: set<string>, raw: string)
    requires SplitSurname(particles, raw).Some?
    ensures SplitSurname(particles, SplitSurname(particles, raw).value.bracket) == SplitSurname(particles, raw)
  {
    var (i, j) := Bracket(raw).value;
    var b := raw[i..j + 1];
    SplitAtBracket(particles, raw, i, j);
    assert SplitSurname(particles, raw).value.bracket == b;
    BracketOfBracket(b);
    SplitAtBracket(particles, b, 0, |b| - 1);
    Subslices(raw, i, j);
  }

  /** The inside and the whole of the slice `raw[i..j + 1]`, as slices of `raw`. */
  lemma Subslices(raw: string, i: nat, j: nat)
    requires i < j < |raw|
    ensures var b := raw[i..j + 1]; |b| == j + 1 - i && b[1..|b| - 1] == raw[i + 1..j] && b[0..|b| - 1 + 1] == b
  {
    var b := raw[i..j + 1];
    var inner, content := b[1..|b| - 1], raw[i + 1..j];
    assert |inner| == |content|;
    assert forall k :: 0 <= k < |content| ==> inner[k] == content[k];
  }

  /** A character other than a space that the raw value lacks is in none of its surname parts. */
  lemma SplitSurnameKeepsOut(particles: set<string>, raw: string, c: char)
    requires SplitSurname(particles, raw).Some?
    requires c !in raw && c != ' '
    ensures var n := SplitSurname(particles, raw).value;
            c !in n.bracket && c !in n.spfx && c !in n.surn
  {
    var (i, j) := Bracket(raw).value;
    var content := raw[i + 1..j];
    var words := Words(content);
    var count := LongestParticle(particles, words, |words|);
    assert forall x :: x in raw[i..j + 1] ==> x in raw;
    assert forall x :: x in content ==> x in raw;
    WordsKeepOut(content, c, 0, count);
    WordsKeepOut(content, c, count, |words|);
    assert words[0..count] == words[..count];
    assert words[count..|words|] == words[count..];
  }

  /** In `given /content/`, with no slash in either part, the bracket is the one shown. */
  lemma BracketOfWellFormed(given: string, content: string)
    requires '/' !in given && '/' !in content
    ensures Bracket(given + "/" + content + "/") == Some((|given|, |given| + 1 + |content|))
  {
    var raw := given + "/" + content + "/";
    var i, j := |given|, |given| + 1 + |content|;
    assert forall k :: 0 <= k < i ==> raw[k] == given[k] && given[k] in given;
    assert forall k :: i < k < j ==> raw[k] == content[k - i - 1] && content[k - i - 1] in content;
    assert raw[i] == '/' && raw[j] == '/';
  }

  /** The words of a single-space join of words are those words. */
  lemma WordsOfJoin(words: seq<string>)
    requires |words| >= 1
    requires forall k :: 0 <= k < |words| ==> words[k] != [] && ' ' !in words[k]
    ensures Words(Join(words, ' ')) == words
  {
    SplitJoin(words, ' ');
  }

  /**
   * A name `given /w1 w2 ... wn/` whose given part has no slash splits into the
   * longest particle among the leading words and the remaining words.
   */
  lemma SplitWords(particles: set<string>, given: string, words: seq<string>)
    requires '/' !in given
    requires |words| >= 1
    requires forall k :: 0 <= k < |words| ==> words[k] != [] && ' ' !in words[k] && '/' !in words[k]
    ensures var content := Join(words, ' ');
            var count := LongestParticle(particles, words, |words|);
            SplitSurname(particles, given + "/" + content + "/")
              == Some(Surname("/" + content + "/", Join(words[..count], ' '), Join(words[count..], ' ')))
  {
    var content := Join(words, ' ');
    var raw := given + "/" + content + "/";
    JoinKeepsOut(words, ' ', '/');
    BracketOfWellFormed(given, content);
    var i, j := |given|, |given| + 1 + |content|;
    assert raw[i + 1..j] == content;
    assert raw[i..j + 1] == "/" + content + "/";
    WordsOfJoin(words);
    SplitAtBracket(particles, raw, i, j);
  }

  /** The split of a name whose bracket lies at positions i and j. */
  lemma SplitAtBracket(particles: set<string>, raw: string, i: nat, j: nat)
    requires Bracket(raw) == Some((i, j))
    ensures var parts := SplitContent(particles, raw[i + 1..j]);
            SplitSurname(particles, raw) == Some(Surname(raw[i..j + 1], parts.0, parts.1))
    ensures var words := Words(raw[i + 1..j]);
            var count := LongestParticle(particles, words, |words|);
            SplitSurname(particles, raw) == Some(Surname(raw[i..j + 1], Join(words[..count], ' '), Join(words[count..], ' ')))
    ensures Content(raw[i..j + 1]) == raw[i + 1..j]
  {
    Subslices(raw, i, j);
  }

  /** `SplitWords` with the joins it mentions already worked out. */
  lemma SplitKnownWords(particles: set<string>, given: string, raw: string, words: seq<string>,
                        count: nat, content: string, spfx: string, surn: string)
    requires '/' !in given
    requires |words| >= 1
    requires forall k :: 0 <= k < |words| ==> words[k] != [] && ' ' !in words[k] && '/' !in words[k]
    requires Join(words, ' ') == content && raw == given + "/" + content + "/"
    requires count == LongestParticle(particles, words, |words|)
    requires Join(words[..count], ' ') == spfx && Join(words[count..], ' ') == surn
    ensures SplitSurname(particles, raw) == Some(Surname("/" + content + "/", spfx, surn))
  {
    SplitWords(particles, given, words);
  }

  /** A text with a capital letter is not a particle when no particle holds one. */
  lemma NotAParticle(particles: set<string>, w: string, k: nat)
    requires NoCapitalParticles(particles)
    requires k < |w| && 'A' <= w[k] <= 'Z'
    ensures w !in particles
  {
  }

  /** Particles none of which holds a capital letter A-Z. */
  predicate NoCapitalParticles(particles: set<string>)
  {
    forall p :: p in particles ==> forall k :: 0 <= k < |p| ==> !('A' <= p[k] <= 'Z')
  }

  /** The particles the paternal-tradition tests rely on. */
  function TestParticles(): set<string>
  {
    {"de", "van", "der", "'t", "van der", "van 't"}
  }
}
