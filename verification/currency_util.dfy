/**
 * Parsing of a printed currency pair such as "EURUSD" back into a pair of
 * currency units. The currency registry (the money library's lookup of an ISO
 * code) is a partial map from code to unit.
 */
module CurrencyUtil {
  import opened Wrappers
  import opened Model

  /** The two ways parsing fails; both surface as an application error. */
  datatype CurrencyError =
    | InvalidCodeCount(codePair: string, count: nat)
    | UnknownCurrency(code: string)

  /** The currency registry: the codes it knows and the unit it returns for each. */
  type Registry = map<string, CurrencyUnit>

  /** The registry returns, for every code it knows, a unit carrying that code. */
  ghost predicate Faithful(registry: Registry)
  {
    forall code :: code in registry ==> registry[code].code == code
  }

  /** The strings run together in order. */
  function Concat(parts: seq<string>): string
  {
    if parts == [] then "" else parts[0] + Concat(parts[1..])
  }

  /** The characters the pattern's `.` does not match: the line terminators of Java's regular expressions. */
  predicate IsLineTerminator(c: char)
  {
    c == '\n' || c == '\r' || c == '\U{85}' || c == '\U{2028}' || c == '\U{2029}'
  }

  /** Whether `.` matches every character of `s`. */
  predicate NoLineTerminator(s: string)
  {
    forall i :: 0 <= i < |s| ==> !IsLineTerminator(s[i])
  }

  /** The index of the first line terminator in `s`, or |s| when there is none. */
  function FirstBreak(s: string): (i: nat)
    ensures i <= |s| && NoLineTerminator(s[..i])
    ensures i < |s| ==> IsLineTerminator(s[i])
    decreases |s|
  {
    if s == "" || IsLineTerminator(s[0]) then 0
    else
      var i := 1 + FirstBreak(s[1..]);
      assert s[..i] == [s[0]] + s[1..][..i - 1];
      i
  }

  /** The index of the first line terminator is the only index with its two properties. */
  lemma {:induction false} FirstBreakUnique(s: string, i: nat)
    requires i <= |s| && NoLineTerminator(s[..i])
    requires i < |s| ==> IsLineTerminator(s[i])
    ensures FirstBreak(s) == i
    decreases |s|
  {
    if s != "" && !IsLineTerminator(s[0]) {
      assert s[1..][..i - 1] == s[..i][1..];
      FirstBreakUnique(s[1..], i - 1);
    }
  }

  /** The smaller of two integers. */
  function Min(a: int, b: int): int
  {
    if a <= b then a else b
  }

  /**
   * Splitting after every third character, as the pattern "(?<=\G...)" splits.
   * Each split point is three characters after the previous one, and `.` must
   * match all three, so the splitting stops at the first three-character window
   * holding a line terminator. A trailing empty string is dropped, and an empty
   * input gives one empty chunk. Characters are Unicode code points, which is
   * what `.` consumes.
   */
  function Chunks(s: string): (chunks: seq<string>)
    ensures |chunks| >= 1
    ensures Concat(chunks) == s
    ensures forall i :: 0 <= i < |chunks| - 1 ==> |chunks[i]| == 3 && NoLineTerminator(chunks[i])
    ensures s == "" ==> chunks == [""]
    ensures s != "" ==>
              var last := chunks[|chunks| - 1];
              last != "" && (|last| <= 3 || !NoLineTerminator(last[..3]))
    decreases |s|
  {
    if |s| <= 3 || !NoLineTerminator(s[..3]) then [s] else [s[..3]] + Chunks(s[3..])
  }

  /**
   * The number of chunks is fixed by the length and by where the first line
   * terminator sits: a split every three characters, up to the window holding it.
   */
  lemma {:induction false} ChunkCount(s: string)
    ensures |Chunks(s)| == if s == "" then 1 else 1 + Min(FirstBreak(s) / 3, (|s| - 1) / 3)
    decreases |s|
  {
    if |s| > 3 && NoLineTerminator(s[..3]) {
      var rest := s[3..];
      assert |Chunks(s)| == 1 + |Chunks(rest)|;
      ChunkCount(rest);
      var j := FirstBreak(rest);
      FirstBreakAfterWindow(s);
      ThirdOfSum(j);
      ThirdOfSum(|rest| - 1);
      assert FirstBreak(s) / 3 == j / 3 + 1 && (|s| - 1) / 3 == (|rest| - 1) / 3 + 1;
    }
  }

  /** Past a first window free of line terminators, the first line terminator is three further on. */
  lemma FirstBreakAfterWindow(s: string)
    requires |s| > 3 && NoLineTerminator(s[..3])
    ensures FirstBreak(s) == 3 + FirstBreak(s[3..])
  {
    var rest := s[3..];
    var j := FirstBreak(rest);
    assert s[..3 + j] == s[..3] + rest[..j];
    if 3 + j < |s| {
      assert s[3 + j] == rest[j];
    }
    FirstBreakUnique(s, 3 + j);
  }

  /** A sum with three, divided by three, is one more than the third of the other term. */
  lemma ThirdOfSum(a: int)
    ensures (a + 3) / 3 == a / 3 + 1
  {
  }

  /** Without a line terminator the count is the length divided by three, rounded up. */
  lemma ChunkCountWithoutLineTerminator(s: string)
    requires NoLineTerminator(s)
    ensures |Chunks(s)| == if s == "" then 1 else (|s| + 2) / 3
  {
    assert s[..|s|] == s;
    FirstBreakUnique(s, |s|);
    ChunkCount(s);
  }

  /**
   * The strings the pattern splits into exactly two codes: the first three
   * characters are matched by `.`, and the rest does not split again, because it
   * is at most three long or its first three characters hold a line terminator.
   */
  predicate TwoCodes(s: string)
  {
    |s| > 3 && NoLineTerminator(s[..3]) && (|s| <= 6 || !NoLineTerminator(s[3..6]))
  }

  /**
   * A string splits into exactly two codes iff it has the shape above. The two
   * codes are then the first three characters and the rest. A string without
   * line terminators splits into two codes iff it is four to six characters long.
   */
  lemma TwoChunksIffLength(s: string)
    ensures |Chunks(s)| == 2 <==> TwoCodes(s)
    ensures TwoCodes(s) ==> Chunks(s) == [s[..3], s[3..]]
    ensures NoLineTerminator(s) ==> (|Chunks(s)| == 2 <==> 4 <= |s| <= 6)
  {
    if |s| > 3 && NoLineTerminator(s[..3]) {
      assert Chunks(s) == [s[..3]] + Chunks(s[3..]);
      if |s| > 6 {
        assert s[3..][..3] == s[3..6];
      }
    }
    if NoLineTerminator(s) {
      TwoCodesWithoutLineTerminator(s);
    }
  }

  /** Without line terminators, the two-code shape is a length of four to six. */
  lemma TwoCodesWithoutLineTerminator(s: string)
    requires NoLineTerminator(s)
    ensures TwoCodes(s) <==> 4 <= |s| <= 6
  {
    if |s| > 6 {
      assert NoLineTerminator(s[3..6]);
    }
  }

  /** A line terminator in the first three characters stops the split; one right after them leaves two codes. */
  lemma LineTerminatorStopsSplit()
    ensures Chunks("AB\nCDE") == ["AB\nCDE"]
    ensures Chunks("EUR\nUSD") == ["EUR", "\nUSD"]
  {
    assert IsLineTerminator("AB\nCDE"[..3][2]);
    assert "EUR\nUSD"[..3] == "EUR";
    assert "EUR\nUSD"[3..] == "\nUSD";
    assert IsLineTerminator("\nUSD"[..3][0]);
  }

  /** Looks one code up in the registry; an unknown code is an error. */
  function CurrencyCodeToCurrencyUnit(registry: Registry, code: string): (r: Result<CurrencyUnit, CurrencyError>)
    ensures r.Success? <==> code in registry
    ensures r.Success? ==> r.value == registry[code]
    ensures r.Failure? ==> r.error == UnknownCurrency(code)
    ensures Faithful(registry) && r.Success? ==> r.value.code == code
  {
    if code in registry then Success(registry[code]) else Failure(UnknownCurrency(code))
  }

  /**
   * Parses a printed pair: split into three-character codes, insist on exactly
   * two of them, then resolve the first code and then the second.
   */
  function CodePairToCurrPair(registry: Registry, codePair: string): (r: Result<CcyPair, CurrencyError>)
    ensures (r.Failure? && r.error.InvalidCodeCount?) <==> !TwoCodes(codePair)
    ensures r.Failure? && r.error.InvalidCodeCount? ==> r.error.codePair == codePair && r.error.count != 2
    ensures NoLineTerminator(codePair) ==> ((r.Failure? && r.error.InvalidCodeCount?) <==> !(4 <= |codePair| <= 6))
    ensures r.Success? <==> (TwoCodes(codePair) && codePair[..3] in registry && codePair[3..] in registry)
    ensures r.Success? ==> r.value == CcyPair(registry[codePair[..3]], registry[codePair[3..]])
    ensures TwoCodes(codePair) && codePair[..3] !in registry ==> r == Failure(UnknownCurrency(codePair[..3]))
    ensures (TwoCodes(codePair) && codePair[..3] in registry && codePair[3..] !in registry)
      ==> r == Failure(UnknownCurrency(codePair[3..]))
  {
    TwoChunksIffLength(codePair);
    var codes := Chunks(codePair);
    if |codes| != 2 then
      Failure(InvalidCodeCount(codePair, |codes|))
    else
      match CurrencyCodeToCurrencyUnit(registry, codes[0])
      case Failure(e) => Failure(e)
      case Success(unitOne) =>
        match CurrencyCodeToCurrencyUnit(registry, codes[1])
        case Failure(e) => Failure(e)
        case Success(unitTwo) => Success(CcyPair(unitOne, unitTwo))
  }

  /** Printing a parsed pair gives back the parsed string, when the registry is faithful. */
  lemma ParseThenPrint(registry: Registry, codePair: string)
    requires Faithful(registry)
    requires CodePairToCurrPair(registry, codePair).Success?
    ensures CodePairToCurrPair(registry, codePair).value.ToString() == codePair
  {
    var p := CodePairToCurrPair(registry, codePair).value;
    assert p.unitOne.code == codePair[..3];
    assert p.unitTwo.code == codePair[3..];
    assert codePair == codePair[..3] + codePair[3..];
  }

  /**
   * The pairs whose printed form parses back: a known first code of three
   * characters with no line terminator, and a known second code of one to three
   * characters.
   */
  ghost predicate Printable(registry: Registry, pair: CcyPair)
  {
    && |pair.unitOne.code| == 3
    && NoLineTerminator(pair.unitOne.code)
    && 1 <= |pair.unitTwo.code| <= 3
    && pair.unitOne.code in registry && registry[pair.unitOne.code] == pair.unitOne
    && pair.unitTwo.code in registry && registry[pair.unitTwo.code] == pair.unitTwo
  }

  /** Parsing a printed pair gives back the pair, for a pair the registry can resolve. */
  lemma PrintThenParse(registry: Registry, pair: CcyPair)
    requires Printable(registry, pair)
    ensures CodePairToCurrPair(registry, pair.ToString()) == Success(pair)
  {
    var s := pair.ToString();
    assert s[..3] == pair.unitOne.code;
    assert s[3..] == pair.unitTwo.code;
  }

  /** Two printable pairs with the same printed form are the same pair. */
  lemma PrintInjective(registry: Registry, a: CcyPair, b: CcyPair)
    requires Printable(registry, a) && Printable(registry, b)
    requires a.ToString() == b.ToString()
    ensures a == b
  {
    PrintThenParse(registry, a);
    PrintThenParse(registry, b);
  }
}
