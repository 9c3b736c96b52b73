/** Text helpers the scripts rely on implicitly: Python's `str(n)` for a
    non-negative integer, ASCII case mapping for `.lower()` / `.upper()`,
    and prefix, suffix and search on strings. */
module Strings {
  import opened Options

  predicate IsDigit(c: char) {
    '0' <= c <= '9'
  }

  predicate AllDigits(s: string) {
    forall i :: 0 <= i < |s| ==> IsDigit(s[i])
  }

  function DigitChar(d: nat): (c: char)
    requires d < 10
    ensures IsDigit(c)
  {
    ('0' as int + d) as char
  }

  function DigitValue(c: char): (d: nat)
    requires IsDigit(c)
    ensures d < 10 && DigitChar(d) == c
  {
    c as int - '0' as int
  }

  /** Python's `str(n)` (and an f-string `{n}`) for `n >= 0`: the decimal
      digits of `n`, most significant first, with no leading zero. */
  function Dec(n: nat): (s: string)
    ensures 1 <= |s|
    ensures AllDigits(s)
    ensures |s| > 1 ==> s[0] != '0'
    decreases n
  {
    if n < 10 then [DigitChar(n)] else Dec(n / 10) + [DigitChar(n % 10)]
  }

  /** Reads a non-empty run of decimal digits back as a number; None on any
      other text. The partner of `Dec`. */
  function ParseDec(s: string): (r: Option<nat>)
    ensures r.Some? <==> |s| > 0 && AllDigits(s)
    decreases |s|
  {
    if |s| == 0 || !IsDigit(s[|s| - 1]) then None
    else if |s| == 1 then Some(DigitValue(s[0]))
    else
      match ParseDec(s[..|s| - 1])
      case None => None
      case Some(v) => Some(10 * v + DigitValue(s[|s| - 1]))
  }

  /** Reading back the decimal rendering of a number gives that number. */
  lemma {:induction false} DecRoundTrip(n: nat)
    ensures ParseDec(Dec(n)) == Some(n)
    decreases n
  {
    if n >= 10 {
      DecRoundTrip(n / 10);
      var s := Dec(n);
      assert s[..|s| - 1] == Dec(n / 10);
    }
  }

  /** Two numbers render to the same text exactly when they are equal. */
  lemma DecInjective(a: nat, b: nat)
    ensures Dec(a) == Dec(b) <==> a == b
  {
    if Dec(a) == Dec(b) {
      DecRoundTrip(a);
      DecRoundTrip(b);
    }
  }

  predicate StartsWith(s: string, prefix: string) {
    |prefix| <= |s| && s[..|prefix|] == prefix
  }

  /** Python's `str.endswith`. */
  predicate EndsWith(s: string, suffix: string) {
    |suffix| <= |s| && s[|s| - |suffix|..] == suffix
  }

  /** Position of the first `c` in `s`, or `|s|` when `s` has none. */
  function IndexOf(s: string, c: char): (k: nat)
    ensures k <= |s|
    ensures forall j :: 0 <= j < k ==> s[j] != c
    ensures k < |s| ==> s[k] == c
    decreases |s|
  {
    if |s| == 0 then 0
    else if s[0] == c then 0
    else 1 + IndexOf(s[1..], c)
  }

  function LowerChar(c: char): char {
    if 'A' <= c <= 'Z' then (c as int + 32) as char else c
  }

  function UpperChar(c: char): char {
    if 'a' <= c <= 'z' then (c as int - 32) as char else c
  }

  /** `.lower()` on the letters A-Z; every other character is kept. No
      character outside A-Z lower-cases to one of the letters of "salir",
      so this agrees with Python on the only comparison the scripts make. */
  function Lower(s: string): (r: string)
    ensures |r| == |s|
    ensures forall i :: 0 <= i < |s| ==> r[i] == LowerChar(s[i])
  {
    seq(|s|, i requires 0 <= i < |s| => LowerChar(s[i]))
  }

  /** `.upper()` on the letters a-z, as `Lower`. */
  function Upper(s: string): (r: string)
    ensures |r| == |s|
    ensures forall i :: 0 <= i < |s| ==> r[i] == UpperChar(s[i])
  {
    seq(|s|, i requires 0 <= i < |s| => UpperChar(s[i]))
  }

  const QuitWord := "salir"

  /** `mensaje.lower() == 'salir'`: the line that ends a chat loop. */
  predicate IsQuit(line: string) {
    Lower(line) == QuitWord
  }

  /** `input(...).upper() == 'B'`: the answer that selects Bluetooth. */
  predicate ChoosesBluetooth(answer: string) {
    Upper(answer) == "B"
  }

  /** A line ends the chat loop exactly when it is "salir" written in any
      mix of upper- and lower-case letters. */
  lemma QuitIgnoresCase(line: string)
    ensures IsQuit(line) <==>
      |line| == 5 && forall i :: 0 <= i < 5 ==> line[i] == "salir"[i] || line[i] == "SALIR"[i]
  {
    if IsQuit(line) {
      forall i | 0 <= i < 5
        ensures line[i] == "salir"[i] || line[i] == "SALIR"[i]
      {
        assert LowerChar(line[i]) == "salir"[i];
      }
    }
    if |line| == 5 && forall i :: 0 <= i < 5 ==> line[i] == "salir"[i] || line[i] == "SALIR"[i] {
      assert Lower(line) == QuitWord;
    }
  }

  /** The mode prompt selects Bluetooth for "B" and "b" and nothing else. */
  lemma BluetoothAnswers(answer: string)
    ensures ChoosesBluetooth(answer) <==> answer == "B" || answer == "b"
  {
    if ChoosesBluetooth(answer) {
      assert |answer| == 1;
      assert UpperChar(answer[0]) == 'B';
      assert answer == [answer[0]];
    }
    if answer == "b" {
      assert Upper(answer) == "B";
    }
  }
}
