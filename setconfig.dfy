/** The core-affinity mask string handed to `taskset`: "0x" followed by one
    hex digit selecting big cores (CPUs 4-7) and one selecting LITTLE cores
    (CPUs 0-3). A count outside 0..4 contributes no digit for its cluster. */
module CoreConfig {

  /** Value of a lower-case hex digit, or -1 for any other character. */
  function HexValue(c: char): (v: int)
    ensures -1 <= v < 16
    ensures '0' <= c <= '9' ==> v == c as int - '0' as int
    ensures 'a' <= c <= 'f' ==> v == c as int - 'a' as int + 10
    ensures v == -1 <==> !('0' <= c <= '9' || 'a' <= c <= 'f')
  {
    if '0' <= c <= '9' then c as int - '0' as int
    else if 'a' <= c <= 'f' then c as int - 'a' as int + 10
    else -1
  }

  /** Number of set bits in the binary representation of v. */
  function PopCount(v: nat): nat {
    if v == 0 then 0 else v % 2 + PopCount(v / 2)
  }

  /** Digit for the big cluster: 0 -> "0", 1 -> "8", 2 -> "9", 3 -> "e",
      4 -> "f"; any other count gives the empty string. */
  function BigDigit(numBig: int): (r: string)
    ensures |r| == (if 0 <= numBig <= 4 then 1 else 0)
  {
    match numBig
    case 0 => "0"
    case 1 => "8"
    case 2 => "9"
    case 3 => "e"
    case 4 => "f"
    case _ => ""
  }

  /** Digit for the LITTLE cluster: 0 -> "0", 1 -> "1", 2 -> "6", 3 -> "7",
      4 -> "f"; any other count gives the empty string. */
  function LittleDigit(numLittle: int): (r: string)
    ensures |r| == (if 0 <= numLittle <= 4 then 1 else 0)
  {
    match numLittle
    case 0 => "0"
    case 1 => "1"
    case 2 => "6"
    case 3 => "7"
    case 4 => "f"
    case _ => ""
  }

  /** The affinity mask string for numBig big and numLittle LITTLE cores. */
  function ConfigStr(numBig: int, numLittle: int): (r: string)
    ensures |r| >= 2 && r[..2] == "0x"
    ensures |r| == 4 <==> 0 <= numBig <= 4 && 0 <= numLittle <= 4
    ensures |r| < 4 <==> !(0 <= numBig <= 4) || !(0 <= numLittle <= 4)
  {
    "0x" + BigDigit(numBig) + LittleDigit(numLittle)
  }

  /** Each emitted digit is a hex digit with exactly as many set bits as the
      requested number of cores of its cluster. */
  lemma DigitsCountCores(n: int)
    requires 0 <= n <= 4
    ensures HexValue(BigDigit(n)[0]) >= 0 && PopCount(HexValue(BigDigit(n)[0])) == n
    ensures HexValue(LittleDigit(n)[0]) >= 0 && PopCount(HexValue(LittleDigit(n)[0])) == n
  {
    assert PopCount(1) == 1;
    assert PopCount(3) == 2;
    assert PopCount(7) == 3;
    assert PopCount(6) == 2 && PopCount(8) == 1 && PopCount(9) == 2;
    assert PopCount(14) == 3 && PopCount(15) == 4;
  }

  /** The big digits as mask values: 0, 8, 9, 14 and 15, that is the CPU sets
      {}, {7}, {7, 4}, {7, 6, 5} and {7, 6, 5, 4}. */
  lemma BigDigitValues(n: int)
    requires 0 <= n <= 4
    ensures HexValue(BigDigit(n)[0]) == [0, 8, 9, 14, 15][n]
  {
  }

  /** For valid counts the third character is the big digit and the fourth the
      LITTLE digit, each taken from its cluster's table. */
  lemma ConfigStrDigits(numBig: int, numLittle: int)
    requires 0 <= numBig <= 4 && 0 <= numLittle <= 4
    ensures |ConfigStr(numBig, numLittle)| == 4
    ensures ConfigStr(numBig, numLittle)[2] == "089ef"[numBig]
    ensures ConfigStr(numBig, numLittle)[3] == "0167f"[numLittle]
  {
  }

  /** For valid counts the mask is "0x", the big digit, then the LITTLE digit,
      and its two nibbles count the requested big and LITTLE cores. */
  lemma ConfigStrValid(numBig: int, numLittle: int)
    requires 0 <= numBig <= 4 && 0 <= numLittle <= 4
    ensures var r := ConfigStr(numBig, numLittle);
      && r == "0x" + [BigDigit(numBig)[0], LittleDigit(numLittle)[0]]
      && PopCount(HexValue(r[2])) == numBig
      && PopCount(HexValue(r[3])) == numLittle
  {
    DigitsCountCores(numBig);
    DigitsCountCores(numLittle);
  }

  /** Valid counts are recovered from the mask: different requests give
      different strings. */
  lemma ConfigStrInjective(a: int, b: int, c: int, d: int)
    requires 0 <= a <= 4 && 0 <= b <= 4 && 0 <= c <= 4 && 0 <= d <= 4
    requires ConfigStr(a, b) == ConfigStr(c, d)
    ensures a == c && b == d
  {
    ConfigStrValid(a, b);
    ConfigStrValid(c, d);
  }

  /** An out-of-range big count drops the big digit, so the LITTLE digit moves
      into the position the big digit would have had. */
  lemma InvalidBigDropsDigit(numBig: int, numLittle: int)
    requires !(0 <= numBig <= 4) && 0 <= numLittle <= 4
    ensures ConfigStr(numBig, numLittle) == "0x" + LittleDigit(numLittle)
    ensures |ConfigStr(numBig, numLittle)| == 3
  {
  }

  /** Out-of-range counts on both sides leave the bare prefix. */
  lemma InvalidBothGivesPrefix(numBig: int, numLittle: int)
    requires !(0 <= numBig <= 4) && !(0 <= numLittle <= 4)
    ensures ConfigStr(numBig, numLittle) == "0x"
  {
  }
}
