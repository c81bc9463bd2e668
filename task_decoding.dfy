/** The decoding task of the real-effort app: ten letters, ten digits in
    random order forming a code, and a five-digit word to decode. */
module TaskDecoding {
  import opened Wrappers
  import opened Json
  import opened Text

  const CHARSET: string := "ABCDEFGHIJKLMNOPQRSTUVWXYZ"
  const DIGITS: string := "0123456789"
  const WORD_LENGTH: nat := 5

  predicate Distinct(s: seq<char>) {
    forall i, j :: 0 <= i < j < |s| ==> s[i] != s[j]
  }

  /** What `random.sample(pool, k)` can return: `k` distinct members of
      the pool. */
  predicate IsSample(s: seq<char>, pool: seq<char>, k: nat) {
    |s| == k && Distinct(s) && forall i :: 0 <= i < |s| ==> s[i] in pool
  }

  /** `dict(zip(keys, values))`: pairs up to the shorter length, a later
      pair overriding an earlier one. */
  function Zip(keys: seq<char>, values: seq<char>): (r: map<char, char>)
    ensures forall k :: k in r <==> exists i :: 0 <= i < |keys| && i < |values| && keys[i] == k
    decreases |keys|
  {
    var n := if |keys| < |values| then |keys| else |values|;
    if n == 0 then map[]
    else
      var rest := Zip(keys[..n - 1], values[..n - 1]);
      assert forall i :: 0 <= i < n - 1 ==> keys[..n - 1][i] == keys[i];
      rest[keys[n - 1] := values[n - 1]]
  }

  /** With distinct keys every pair survives. */
  lemma {:induction false} ZipDistinct(keys: seq<char>, values: seq<char>, i: nat)
    requires Distinct(keys) && |keys| == |values| && i < |keys|
    ensures keys[i] in Zip(keys, values) && Zip(keys, values)[keys[i]] == values[i]
    decreases |keys|
  {
    var n := |keys|;
    if i < n - 1 {
      ZipDistinct(keys[..n - 1], values[..n - 1], i);
    }
  }

  lemma {:induction false} DistinctSetSize(s: seq<char>)
    requires Distinct(s)
    ensures |set c | c in s| == |s|
  {
    if s != [] {
      var t := s[..|s| - 1];
      DistinctSetSize(t);
      assert (set c | c in s) == (set c | c in t) + {s[|s| - 1]};
    }
  }

  lemma {:induction false} SubsetSize(a: set<char>, b: set<char>)
    requires a <= b
    ensures |a| <= |b|
    decreases |b|
  {
    if a != {} {
      var x :| x in a;
      SubsetSize(a - {x}, b - {x});
    }
  }

  /** A sample of all ten digits is an ordering of them: every digit occurs. */
  lemma FullSample(digits: seq<char>)
    requires IsSample(digits, DIGITS, |DIGITS|)
    ensures forall c :: c in DIGITS ==> c in digits
  {
    DistinctSetSize(digits);
    var a := set c | c in digits;
    var b := set c | c in DIGITS;
    assert Distinct(DIGITS);
    DistinctSetSize(DIGITS);
    assert a <= b;
    if a != b {
      var x :| x in b && x !in a;
      assert a <= b - {x} && |b - {x}| == |b| - 1;
      SubsetSize(a, b - {x});
      assert false;
    }
    forall c | c in DIGITS
      ensures c in digits
    {
      assert c in b;
    }
  }

  datatype Generated = Generated(text: Value, solution: string)

  function Row(cs: seq<char>): (r: seq<Value>)
    ensures |r| == |cs| && forall i :: 0 <= i < |cs| ==> r[i] == Str([cs[i]])
  {
    if cs == [] then [] else [Str([cs[0]])] + Row(cs[1..])
  }

  /** Every digit is a key of the code, and stands for a letter. */
  lemma CodeOfDigit(chars: seq<char>, digits: seq<char>, c: char)
    requires IsSample(chars, CHARSET, |DIGITS|) && IsSample(digits, DIGITS, |DIGITS|) && c in DIGITS
    ensures c in Zip(digits, chars) && Zip(digits, chars)[c] in CHARSET
  {
    FullSample(digits);
    var a :| 0 <= a < |digits| && digits[a] == c;
    ZipDistinct(digits, chars, a);
  }

  /** Distinct digits stand for distinct letters. */
  lemma CodeInjective(chars: seq<char>, digits: seq<char>, c: char, d: char)
    requires IsSample(chars, CHARSET, |DIGITS|) && IsSample(digits, DIGITS, |DIGITS|)
    requires c in DIGITS && d in DIGITS && c != d
    ensures c in Zip(digits, chars) && d in Zip(digits, chars) && Zip(digits, chars)[c] != Zip(digits, chars)[d]
  {
    FullSample(digits);
    var a :| 0 <= a < |digits| && digits[a] == c;
    var b :| 0 <= b < |digits| && digits[b] == d;
    ZipDistinct(digits, chars, a);
    ZipDistinct(digits, chars, b);
  }

  /** The code word spelled out with the code. */
  function Decoded(chars: seq<char>, digits: seq<char>, coded: seq<char>): (r: string)
    requires IsSample(chars, CHARSET, |DIGITS|) && IsSample(digits, DIGITS, |DIGITS|) && IsSample(coded, DIGITS, WORD_LENGTH)
    ensures |r| == |coded| && forall i :: 0 <= i < |coded| ==> coded[i] in Zip(digits, chars) && r[i] == Zip(digits, chars)[coded[i]]
  {
    var lookup := Zip(digits, chars);
    forall i | 0 <= i < |coded|
      ensures coded[i] in lookup
    {
      CodeOfDigit(chars, digits, coded[i]);
    }
    seq(|coded|, i requires 0 <= i < |coded| => lookup[coded[i]])
  }

  /** The decoded word has distinct letters. */
  lemma DecodedLetters(chars: seq<char>, digits: seq<char>, coded: seq<char>)
    requires IsSample(chars, CHARSET, |DIGITS|) && IsSample(digits, DIGITS, |DIGITS|) && IsSample(coded, DIGITS, WORD_LENGTH)
    ensures var w := Decoded(chars, digits, coded);
      Distinct(w) && forall i :: 0 <= i < |w| ==> w[i] in CHARSET
  {
    var w := Decoded(chars, digits, coded);
    forall i | 0 <= i < |w|
      ensures w[i] in CHARSET
    {
      CodeOfDigit(chars, digits, coded[i]);
    }
    forall i, j | 0 <= i < j < |w|
      ensures w[i] != w[j]
    {
      CodeInjective(chars, digits, coded[i], coded[j]);
    }
  }

  /** `generate_puzzle_fields` with the three samples it draws; `text` is the
      object that `json.dumps` serialises. */
  function GeneratePuzzleFields(chars: seq<char>, digits: seq<char>, coded: seq<char>): (r: Generated)
    requires IsSample(chars, CHARSET, |DIGITS|) && IsSample(digits, DIGITS, |DIGITS|) && IsSample(coded, DIGITS, WORD_LENGTH)
    ensures |r.solution| == WORD_LENGTH
    ensures forall i :: 0 <= i < WORD_LENGTH ==> coded[i] in Zip(digits, chars) && r.solution[i] == Zip(digits, chars)[coded[i]]
    ensures Distinct(r.solution) && forall i :: 0 <= i < |r.solution| ==> r.solution[i] in CHARSET
  {
    DecodedLetters(chars, digits, coded);
    Generated(Obj(map["rows" := Arr([Arr(Row(chars)), Arr(Row(digits))]), "coded_word" := Str(coded)]), Decoded(chars, digits, coded))
  }

  // ---- reading the puzzle back -----------------------------------------------

  /** A row of one-character strings. */
  function RowChars(items: seq<Value>): (r: Option<seq<char>>)
    ensures r.Some? ==> |r.value| == |items|
  {
    if items == [] then Some([])
    else if items[0].Str? && |items[0].s| == 1 then
      match RowChars(items[1..]) case Some(cs) => Some([items[0].s[0]] + cs) case None => None
    else None
  }

  lemma {:induction false} RowCharsOfRow(cs: seq<char>)
    ensures RowChars(Row(cs)) == Some(cs)
  {
    if cs != [] {
      RowCharsOfRow(cs[1..]);
      assert Row(cs)[1..] == Row(cs[1..]);
      assert Row(cs)[0].s[0] == cs[0];
      assert [cs[0]] + cs[1..] == cs;
    }
  }

  /** What a participant reads off the image: each coded digit translated
      through the two rows. */
  function Decode(text: Value): Option<string> {
    if text.Obj? && "rows" in text.fields && "coded_word" in text.fields &&
       text.fields["rows"].Arr? && |text.fields["rows"].items| == 2 &&
       text.fields["rows"].items[0].Arr? && text.fields["rows"].items[1].Arr? &&
       text.fields["coded_word"].Str? then
      var word := text.fields["coded_word"].s;
      match (RowChars(text.fields["rows"].items[0].items), RowChars(text.fields["rows"].items[1].items))
      case (Some(chars), Some(digits)) =>
        var lookup := Zip(digits, chars);
        if forall i :: 0 <= i < |word| ==> word[i] in lookup then
          Some(seq(|word|, i requires 0 <= i < |word| => lookup[word[i]]))
        else None
      case _ => None
    else None
  }

  /** The text stores the rows and the coded word, so the solution can be read
      back from it. */
  lemma DecodeRecoversSolution(chars: seq<char>, digits: seq<char>, coded: seq<char>)
    requires IsSample(chars, CHARSET, |DIGITS|) && IsSample(digits, DIGITS, |DIGITS|) && IsSample(coded, DIGITS, WORD_LENGTH)
    ensures Decode(GeneratePuzzleFields(chars, digits, coded).text) == Some(GeneratePuzzleFields(chars, digits, coded).solution)
  {
    RowCharsOfRow(chars);
    RowCharsOfRow(digits);
  }
}
