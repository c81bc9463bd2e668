/** Readable non-words made from words: a word is split into clusters of
    vowels and of consonants, and one cluster is replaced by another of the
    same class, or the inner clusters are shuffled.  The regular expression
    that splits words is modelled as a greedy scan: at each position the
    longest cluster that starts there (the alternation lists the clusters
    longest first, vowels before consonants), and the runs of characters no
    cluster starts kept as fragments of their own.  Random
    draws are parameters; a draw from a range of size `n` is any natural
    number taken modulo `n`. */
module NonwordUtils {
  import opened Wrappers
  import opened Text

  datatype Class = Vowels | Consonants

  /** The vowel clusters after the module sorts them by decreasing length.
      The sort is stable, so it groups the clusters by length and keeps the
      listed order within a group; `'au'` is listed twice. */
  const VOWL_CLUSTERS: seq<string> := VOWL_3 + VOWL_2 + VOWL_1
  const VOWL_3: seq<string> := ["eau", "eue", "ewe", "ieo", "iew", "oeu"]
  const VOWL_2: seq<string> := ["aa", "ae", "ai", "au", "au", "aw", "ay", "ea", "ee", "ei", "ey", "eo", "eu", "ew",
    "ie", "oa", "oe", "oi", "oo", "ou", "ow", "oy", "ue", "ui", "uu", "uy"]
  const VOWL_1: seq<string> := ["a", "e", "i", "o", "u", "y"]

  /** The consonant clusters after the same sort. */
  const CONS_CLUSTERS: seq<string> := CONS_3 + CONS_2 + CONS_1
  const CONS_3: seq<string> := ["pph", "rrh", "sch", "tch"]
  const CONS_2: seq<string> := ["bb", "cc", "ch", "ck", "dd", "dh", "dg", "ff", "gg", "gh", "kk", "kh", "ll", "mm",
    "nn", "ng", "pp", "ph", "rr", "rh", "sc", "sh", "ss", "sw", "tt", "th", "vv", "wh", "wr", "xc", "xh", "zz"]
  const CONS_1: seq<string> := ["b", "c", "d", "f", "g", "h", "j", "k", "l", "m", "n", "p", "q", "r", "s", "t", "v",
    "w", "x", "z"]

  function Clusters(c: Class): seq<string> {
    match c
    case Vowels => VOWL_CLUSTERS
    case Consonants => CONS_CLUSTERS
  }

  predicate StartsWith(s: string, p: string) {
    |p| <= |s| && s[..|p|] == p
  }

  /** The longest cluster of the list that `s` starts with (empty clusters
      aside).  On a list sorted longest-first this is the alternative a
      regular-expression alternation takes. */
  function Longest(clusters: seq<string>, s: string): (r: Option<string>)
    ensures r.Some? ==> r.value != [] && StartsWith(s, r.value)
  {
    if clusters == [] then None
    else
      var rest := Longest(clusters[1..], s);
      var c := clusters[0];
      if c != [] && StartsWith(s, c) && (rest.None? || |rest.value| <= |c|) then Some(c) else rest
  }

  /** `Longest` picks a listed cluster no other listed cluster at `s`
      outgrows, and finds none only where no non-empty cluster starts. */
  lemma {:induction false} LongestIsLongest(clusters: seq<string>, s: string)
    ensures Longest(clusters, s).Some? ==> Longest(clusters, s).value in clusters
    ensures Longest(clusters, s).Some? ==>
      forall c :: c in clusters && StartsWith(s, c) ==> |c| <= |Longest(clusters, s).value|
    ensures Longest(clusters, s).None? ==> forall c :: c in clusters && c != [] ==> !StartsWith(s, c)
  {
    if clusters != [] {
      LongestIsLongest(clusters[1..], s);
      assert clusters == [clusters[0]] + clusters[1..];
    }
  }

  /** The cluster `CLUSTER_re` matches at the start of `s`: the longest vowel
      cluster there, or else the longest consonant cluster. */
  function Match(s: string): (r: Option<string>)
    ensures r.Some? ==> r.value != [] && StartsWith(s, r.value)
  {
    match Longest(VOWL_CLUSTERS, s)
    case Some(c) => Some(c)
    case None => Longest(CONS_CLUSTERS, s)
  }

  /** A matched fragment is a longest cluster of its class at its position;
      a consonant cluster is matched only where no vowel cluster starts. */
  lemma MatchIsLongestOfClass(s: string)
    ensures Match(s).Some? && Match(s).value in VOWL_CLUSTERS ==>
      forall c :: c in VOWL_CLUSTERS && StartsWith(s, c) ==> |c| <= |Match(s).value|
    ensures Match(s).Some? && Match(s).value !in VOWL_CLUSTERS ==>
      Match(s).value in CONS_CLUSTERS &&
      (forall c :: c in VOWL_CLUSTERS && c != [] ==> !StartsWith(s, c)) &&
      (forall c :: c in CONS_CLUSTERS && StartsWith(s, c) ==> |c| <= |Match(s).value|)
    ensures Match(s).None? ==> forall c :: (c in VOWL_CLUSTERS || c in CONS_CLUSTERS) && c != [] ==> !StartsWith(s, c)
  {
    LongestIsLongest(VOWL_CLUSTERS, s);
    LongestIsLongest(CONS_CLUSTERS, s);
  }

  /** The fragments `CLUSTER_re.split(s)` yields, without the empty ones:
      matched clusters, and the text between them as single fragments. */
  function Split(s: string): (r: seq<string>)
    decreases |s|
  {
    if s == [] then []
    else match Match(s)
      case Some(c) => [c] + Split(s[|c|..])
      case None => Gap(s[0], Split(s[1..]), Match(s[1..]).None?)
  }

  /** A character no cluster starts joins the gap fragment after it when the
      next character is unmatched too, and stands alone otherwise. */
  function Gap(x: char, rest: seq<string>, glue: bool): seq<string> {
    if rest != [] && glue then [[x] + rest[0]] + rest[1..] else [[x]] + rest
  }

  /** `fragmentize_word`. */
  function FragmentizeWord(word: string): seq<string> {
    Split(Lower(word))
  }

  /** `wordize`: `"".join(frags)`. */
  function Wordize(frags: seq<string>): string {
    if frags == [] then "" else frags[0] + Wordize(frags[1..])
  }

  predicate NoEmptyFragment(frags: seq<string>) {
    forall i :: 0 <= i < |frags| ==> frags[i] != ""
  }

  lemma WordizeCons(f: string, rest: seq<string>)
    ensures Wordize([f] + rest) == f + Wordize(rest)
  {
    assert ([f] + rest)[1..] == rest;
  }

  /** One matched cluster: joining it back in front of the rest. */
  lemma JoinsAfterMatch(s: string, c: string)
    requires s != [] && Match(s) == Some(c)
    requires Wordize(Split(s[|c|..])) == s[|c|..]
    ensures Wordize(Split(s)) == s
  {
    assert Split(s) == [c] + Split(s[|c|..]);
    WordizeCons(c, Split(s[|c|..]));
    assert s == c + s[|c|..];
  }

  /** One unmatched character: it opens the next gap fragment or stands alone. */
  lemma JoinsAfterGap(x: char, rest: seq<string>, glue: bool)
    ensures Wordize(Gap(x, rest, glue)) == [x] + Wordize(rest)
  {
    if rest != [] && glue {
      WordizeCons([x] + rest[0], rest[1..]);
      WordizeCons(rest[0], rest[1..]);
      assert rest == [rest[0]] + rest[1..];
    } else {
      WordizeCons([x], rest);
    }
  }

  /** Splitting loses nothing. */
  lemma {:induction false} SplitJoins(s: string)
    ensures Wordize(Split(s)) == s
    decreases |s|
  {
    if s != [] {
      match Match(s)
      case Some(c) =>
        SplitJoins(s[|c|..]);
        JoinsAfterMatch(s, c);
      case None =>
        SplitJoins(s[1..]);
        JoinsAfterGap(s[0], Split(s[1..]), Match(s[1..]).None?);
        assert s == [s[0]] + s[1..];
    }
  }

  /** No fragment is empty. */
  lemma {:induction false} SplitNonEmpty(s: string)
    ensures NoEmptyFragment(Split(s))
    decreases |s|
  {
    if s != [] {
      match Match(s)
      case Some(c) =>
        SplitNonEmpty(s[|c|..]);
      case None =>
        SplitNonEmpty(s[1..]);
    }
  }

  /** `wordize(fragmentize_word(w)) == w.lower()`, and no fragment is empty. */
  lemma FragmentizeRoundTrip(word: string)
    ensures Wordize(FragmentizeWord(word)) == Lower(word)
    ensures NoEmptyFragment(FragmentizeWord(word))
  {
    SplitJoins(Lower(word));
    SplitNonEmpty(Lower(word));
  }

  /** `count_class`: how many fragments are clusters of the list. */
  function CountClass(frags: seq<string>, clusters: seq<string>): (r: nat)
    ensures r <= |frags|
  {
    if frags == [] then 0 else (if frags[0] in clusters then 1 else 0) + CountClass(frags[1..], clusters)
  }

  /** `s.rstrip(c)`. */
  function RStrip(s: string, c: char): (r: string)
    ensures |r| <= |s| && r == s[..|r|] && (r == [] || r[|r| - 1] != c)
    ensures forall i :: |r| <= i < |s| ==> s[i] == c
  {
    if s != [] && s[|s| - 1] == c then RStrip(s[..|s| - 1], c) else s
  }

  /** `count_syllables`: vowel fragments once trailing `'e'`s are dropped. */
  function CountSyllables(word: string): (r: nat)
    ensures r <= |FragmentizeWord(RStrip(word, 'e'))|
  {
    CountClass(FragmentizeWord(RStrip(word, 'e')), VOWL_CLUSTERS)
  }

  /** A silent final `'e'` adds no syllable. */
  lemma SilentE(word: string)
    ensures CountSyllables(word + "e") == CountSyllables(word)
  {
    assert (word + "e")[..|word|] == word;
  }

  /** `classify_frag`. */
  function ClassifyFrag(frag: string): (r: Option<Class>)
    ensures r.Some? <==> frag in VOWL_CLUSTERS || frag in CONS_CLUSTERS
    ensures r.Some? ==> frag in Clusters(r.value)
  {
    if frag in VOWL_CLUSTERS then Some(Vowels)
    else if frag in CONS_CLUSTERS then Some(Consonants)
    else None
  }

  /** The index of the first occurrence of `x`. */
  function IndexOf(s: seq<string>, x: string): (r: nat)
    requires x in s
    ensures r < |s| && s[r] == x && x !in s[..r]
  {
    if s[0] == x then 0
    else
      var r := IndexOf(s[1..], x) + 1;
      assert s[..r] == [s[0]] + s[1..][..r - 1];
      r
  }

  lemma FirstOccurrence(s: seq<string>, x: string, i: nat)
    requires i < |s| && s[i] == x && x !in s[..i]
    ensures IndexOf(s, x) == i
  {
  }

  /** `list.remove(x)`: the first occurrence removed; Python raises for a
      missing `x`, which the callers never pass. */
  function RemoveFirst(s: seq<string>, x: string): (r: seq<string>)
    requires x in s
    ensures |r| == |s| - 1
    ensures r == s[..IndexOf(s, x)] + s[IndexOf(s, x) + 1..]
  {
    var i := IndexOf(s, x);
    s[..i] + s[i + 1..]
  }

  /** The remaining candidates are the class minus one copy of `x`. */
  lemma RemoveFirstCount(s: seq<string>, x: string)
    requires x in s
    ensures multiset(RemoveFirst(s, x)) == multiset(s) - multiset{x}
  {
    var i := IndexOf(s, x);
    assert s == s[..i] + [x] + s[i + 1..];
  }

  /** `mutate_frag`: an unclassified fragment fails the assertion; otherwise
      the `k`-th of the fragment's class once one copy of it is removed. */
  function MutateFrag(frag: string, k: nat): (r: Result<string>)
    ensures r.Ok? <==> ClassifyFrag(frag).Some?
    ensures r.Err? ==> r.error == AssertionError
    ensures r.Ok? ==> r.value in Clusters(ClassifyFrag(frag).value)
    ensures r.Ok? && r.value == frag ==> ListedTwice(Clusters(ClassifyFrag(frag).value), frag)
  {
    match ClassifyFrag(frag)
    case None => Err(AssertionError)
    case Some(cls) =>
      var s := Clusters(cls);
      var i := IndexOf(s, frag);
      var candidates := RemoveFirst(s, frag);
      var p := k % |candidates|;
      assert p < i ==> candidates[p] == s[p] && s[..i][p] == s[p];
      assert p >= i ==> candidates[p] == s[p + 1];
      Ok(candidates[p])
  }

  /** `x` occurs at two positions of the list. */
  predicate ListedTwice(s: seq<string>, x: string) {
    exists i, j :: 0 <= i < j < |s| && s[i] == x && s[j] == x
  }

  /** `'au'` is listed twice, so it can be replaced by itself. */
  lemma AuMapsToItself()
    ensures MutateFrag("au", 9) == Ok("au")
  {
    forall j | 0 <= j < 9
      ensures VOWL_CLUSTERS[j] != "au"
    {
      assert j == 0 || j == 1 || j == 2 || j == 3 || j == 4 || j == 5 || j == 6 || j == 7 || j == 8;
    }
    assert VOWL_CLUSTERS[9] == "au" && VOWL_CLUSTERS[10] == "au";
    FirstOccurrence(VOWL_CLUSTERS, "au", 9);
    assert ClassifyFrag("au") == Some(Vowels);
    var candidates := RemoveFirst(VOWL_CLUSTERS, "au");
    assert |candidates| == 37 && 9 % 37 == 9;
    assert candidates[9] == VOWL_CLUSTERS[10];
  }

  /** The join of a fragment list around a replaced fragment. */
  lemma {:induction false} WordizeSplit(frags: seq<string>, i: nat, m: string)
    requires i < |frags|
    ensures Wordize(frags[i := m]) == Wordize(frags[..i]) + m + Wordize(frags[i + 1..])
  {
    if i > 0 {
      WordizeSplit(frags[1..], i - 1, m);
      assert frags[i := m][1..] == frags[1..][i - 1 := m];
      assert frags[..i][1..] == frags[1..][..i - 1];
      assert frags[1..][i..] == frags[i + 1..];
    } else {
      assert frags[i := m][1..] == frags[1..];
    }
  }

  /** `mutate_word` with the draws `i` (the fragment) and `k` (its
      replacement): a word without fragments makes `randint(0, -1)` fail, an
      unclassified fragment fails the assertion; otherwise exactly the chosen
      fragment is replaced by a cluster of its class. */
  function MutatedWord(word: string, i: nat, k: nat): Result<string> {
    var frags := FragmentizeWord(word);
    if frags == [] then Err(ValueError)
    else
      var idx := i % |frags|;
      match MutateFrag(frags[idx], k)
      case Err(e) => Err(e)
      case Ok(m) => Ok(Wordize(frags[idx := m]))
  }

  /** The mutated word is the fragments joined with exactly the chosen one
      replaced by a cluster of its class. */
  lemma MutatedWordReplacesOne(word: string, i: nat, k: nat)
    ensures FragmentizeWord(word) == [] <==> MutatedWord(word, i, k) == Err(ValueError)
    ensures MutatedWord(word, i, k).Ok? || MutatedWord(word, i, k) == Err(ValueError) || MutatedWord(word, i, k) == Err(AssertionError)
    ensures MutatedWord(word, i, k).Ok? ==>
      var frags := FragmentizeWord(word);
      var idx := i % |frags|;
      MutateFrag(frags[idx], k).Ok? &&
      MutateFrag(frags[idx], k).value in Clusters(ClassifyFrag(frags[idx]).value) &&
      MutatedWord(word, i, k).value == Wordize(frags[..idx]) + MutateFrag(frags[idx], k).value + Wordize(frags[idx + 1..])
  {
    var frags := FragmentizeWord(word);
    if frags != [] {
      var idx := i % |frags|;
      var m := MutateFrag(frags[idx], k);
      if m.Ok? {
        WordizeSplit(frags, idx, m.value);
      }
    }
  }

  /** `mutate_word`, assigning the replacement into the fragment list. */
  method MutateWord(word: string, i: nat, k: nat) returns (r: Result<string>)
    ensures r == MutatedWord(word, i, k)
  {
    var frags := FragmentizeWord(word);
    if frags == [] {
      return Err(ValueError);
    }
    var idx := i % |frags|;
    var m := MutateFrag(frags[idx], k);
    if m.Err? {
      return Err(m.error);
    }
    frags := frags[idx := m.value];
    return Ok(Wordize(frags));
  }

  /** `shuffle_word`; `draw(i)` stands for `random.shuffle`'s `randbelow(i + 1)`
      at step `i`.  `frags` is the fragment list the result joins. */
  method ShuffleWord(word: string, draw: nat -> nat) returns (r: string, frags: seq<string>)
    ensures |FragmentizeWord(word)| < 4 ==> r == word && frags == FragmentizeWord(word)
    ensures |FragmentizeWord(word)| >= 4 ==> r == Wordize(frags)
    ensures |frags| == |FragmentizeWord(word)| && multiset(frags) == multiset(FragmentizeWord(word))
    ensures |frags| >= 4 ==>
      frags[0] == FragmentizeWord(word)[0] && frags[|frags| - 1] == FragmentizeWord(word)[|frags| - 1] &&
      multiset(frags[1..|frags| - 1]) == multiset(FragmentizeWord(word)[1..|frags| - 1])
  {
    var original := FragmentizeWord(word);
    frags := original;
    var n := |frags|;
    if n < 4 {
      return word, frags;
    }
    var mid := frags[1..n - 1];
    var i := |mid| - 1;
    while i > 0
      invariant 0 <= i < |mid| == n - 2
      invariant multiset(mid) == multiset(original[1..n - 1])
    {
      var j := draw(i) % (i + 1);
      var a, b := mid[i], mid[j];
      mid := mid[i := b][j := a];
      i := i - 1;
    }
    frags := [frags[0]] + mid + [frags[n - 1]];
    assert original == original[..1] + original[1..n - 1] + original[n - 1..];
    assert original[..1] == [frags[0]] && original[n - 1..] == [frags[n - 1]];
    assert frags[1..n - 1] == mid;
    r := Wordize(frags);
  }
}
