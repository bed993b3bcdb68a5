/** The string operations the CLI uses: finding, splitting, joining, stripping and decimal numbers. */
module Text {
  import opened Wrappers

  // ----- searching -----

  /** The index of the first character of `s` that is in `stops`, or |s|. */
  function Find(s: string, stops: string): (i: nat)
    ensures i <= |s|
    ensures i < |s| ==> s[i] in stops
    ensures forall j :: 0 <= j < i ==> s[j] !in stops
  {
    if s == "" || s[0] in stops then 0 else 1 + Find(s[1..], stops)
  }

  /** Nothing in `a` stops the search, the first character of `b` does. */
  lemma {:induction false} FindAcross(a: string, b: string, stops: string)
    requires Free(a, stops)
    requires b != "" ==> b[0] in stops
    ensures Find(a + b, stops) == |a|
  {
    if a == "" {
      assert a + b == b;
    } else {
      assert (a + b)[1..] == a[1..] + b;
      FindAcross(a[1..], b, stops);
    }
  }

  /** No character of `s` is in `bad`. */
  predicate Free(s: string, bad: string) { forall i :: 0 <= i < |s| ==> s[i] !in bad }

  lemma FreeJoin(a: string, b: string, bad: string)
    requires Free(a, bad) && Free(b, bad)
    ensures Free(a + b, bad)
  {}

  // ----- whitespace and case -----

  predicate IsSpace(c: char) { c in " \t\r\n" }

  function StripLeft(s: string): (r: string)
    ensures |r| <= |s| && r == s[|s| - |r|..]
    ensures r != "" ==> !IsSpace(r[0])
  {
    if s == "" || !IsSpace(s[0]) then s else StripLeft(s[1..])
  }

  function StripRight(s: string, drop: string): (r: string)
    ensures r <= s
    ensures r != "" ==> r[|r| - 1] !in drop
  {
    if s == "" || s[|s| - 1] !in drop then s else StripRight(s[..|s| - 1], drop)
  }

  function Strip(s: string): (r: string)
    ensures r != "" ==> !IsSpace(r[0]) && !IsSpace(r[|r| - 1])
  {
    var right := StripRight(s, " \t\r\n");
    var r := StripLeft(right);
    assert r != "" ==> r[|r| - 1] == right[|right| - 1];
    r
  }

  predicate Stripped(s: string) { s != "" ==> !IsSpace(s[0]) && !IsSpace(s[|s| - 1]) }

  lemma StripIdentity(s: string)
    requires Stripped(s)
    ensures Strip(s) == s
  {}

  lemma StripOnlyDrops(s: string)
    ensures forall c :: c in Strip(s) ==> c in s
  {
    assert Strip(s) == StripLeft(StripRight(s, " \t\r\n"));
  }

  predicate Blank(s: string) { forall i :: 0 <= i < |s| ==> IsSpace(s[i]) }

  lemma {:induction false} StripRightPadded(s: string, pad: string, drop: string)
    requires (s != "" ==> s[|s| - 1] !in drop) && forall i :: 0 <= i < |pad| ==> pad[i] in drop
    ensures StripRight(s + pad, drop) == s
    decreases |pad|
  {
    if pad == "" {
      assert s + pad == s;
    } else {
      assert (s + pad)[..|s + pad| - 1] == s + pad[..|pad| - 1];
      StripRightPadded(s, pad[..|pad| - 1], drop);
    }
  }

  lemma {:induction false} StripLeftPadded(pad: string, s: string)
    requires Blank(pad) && (s != "" ==> !IsSpace(s[0]))
    ensures StripLeft(pad + s) == s
  {
    if pad == "" {
      assert pad + s == s;
    } else {
      assert (pad + s)[1..] == pad[1..] + s;
      StripLeftPadded(pad[1..], s);
    }
  }

  /** strip() takes off exactly the white space around. */
  lemma StripPadded(left: string, s: string, right: string)
    requires Blank(left) && Blank(right) && Stripped(s)
    ensures Strip(left + s + right) == s
  {
    if s == "" {
      assert left + s + right == "" + (left + right);
      StripRightPadded("", left + right, " \t\r\n");
    } else {
      var t := left + s;
      assert t[|t| - 1] == s[|s| - 1];
      StripRightPadded(t, right, " \t\r\n");
      StripLeftPadded(left, s);
    }
  }

  lemma {:induction false} StripRightDrops(s: string, drop: string) returns (pad: string)
    ensures s == StripRight(s, drop) + pad && forall i :: 0 <= i < |pad| ==> pad[i] in drop
  {
    if s == "" || s[|s| - 1] !in drop {
      pad := "";
    } else {
      var less := StripRightDrops(s[..|s| - 1], drop);
      pad := less + [s[|s| - 1]];
    }
  }

  lemma {:induction false} StripLeftDrops(s: string) returns (pad: string)
    ensures s == pad + StripLeft(s) && Blank(pad)
  {
    if s == "" || !IsSpace(s[0]) {
      pad := "";
    } else {
      var less := StripLeftDrops(s[1..]);
      assert StripLeft(s) == StripLeft(s[1..]);
      hide StripLeft;
      pad := [s[0]] + less;
      HeadInFront(s, less, StripLeft(s));
    }
  }

  lemma HeadInFront(s: string, less: string, rest: string)
    requires s != "" && s[1..] == less + rest
    ensures s == [s[0]] + less + rest
  {}

  lemma StripDrops(s: string) returns (left: string, right: string)
    ensures s == left + Strip(s) + right && Blank(left) && Blank(right) && Stripped(Strip(s))
  {
    right := StripRightDrops(s, " \t\r\n");
    left := StripLeftDrops(StripRight(s, " \t\r\n"));
  }

  function LowerChar(c: char): char
  {
    if 'A' <= c <= 'Z' then c - 'A' + 'a' else c
  }

  function Lower(s: string): (r: string)
    ensures |r| == |s| && forall i :: 0 <= i < |s| ==> r[i] == LowerChar(s[i])
  {
    seq(|s|, i requires 0 <= i < |s| => LowerChar(s[i]))
  }

  /** Capitals become the small letters of the same place in the alphabet; nothing else changes. */
  lemma CapitalsFold(c: char)
    ensures var capitals, small := "ABCDEFGHIJKLMNOPQRSTUVWXYZ", "abcdefghijklmnopqrstuvwxyz";
      && (forall i :: 0 <= i < |capitals| ==> LowerChar(capitals[i]) == small[i])
      && (c !in capitals ==> LowerChar(c) == c)
  {
    var capitals := "ABCDEFGHIJKLMNOPQRSTUVWXYZ";
    assert 'A' <= c <= 'Z' ==> capitals[c as int - 'A' as int] == c;
  }

  // ----- splitting and joining -----

  /** The index of the first occurrence of `sep` in `s`, or |s|. */
  function FindText(s: string, sep: string): (i: nat)
    requires sep != ""
    ensures i <= |s|
    ensures i < |s| ==> sep <= s[i..]
    ensures |sep| == 1 ==> sep[0] !in s[..i]
  {
    if s == "" || sep <= s then 0 else 1 + FindText(s[1..], sep)
  }

  /** str.split: at least one part. */
  function Split(s: string, sep: string): (parts: seq<string>)
    requires sep != ""
    ensures |parts| > 0
    ensures |sep| == 1 ==> forall p :: p in parts ==> sep[0] !in p
    decreases |s|
  {
    var i := FindText(s, sep);
    if i == |s| then [s] else [s[..i]] + Split(s[i + |sep|..], sep)
  }

  /** str.join */
  function Join(parts: seq<string>, sep: string): string
  {
    if parts == [] then ""
    else if |parts| == 1 then parts[0]
    else parts[0] + sep + Join(parts[1..], sep)
  }

  lemma {:induction false} FindTextAcross(a: string, b: string, sep: char)
    requires sep !in a && (b != "" ==> b[0] == sep)
    ensures FindText(a + b, [sep]) == |a|
  {
    if a == "" {
      assert a + b == b;
    } else {
      assert (a + b)[0] == a[0] && a[0] in a;
      assert (a + b)[1..] == a[1..] + b;
      FindTextAcross(a[1..], b, sep);
    }
  }

  lemma SplitFirst(a: string, b: string, sep: char)
    requires sep !in a
    ensures Split(a + [sep] + b, [sep]) == [a] + Split(b, [sep])
  {
    var s := a + [sep] + b;
    assert s == a + ([sep] + b);
    FindTextAcross(a, [sep] + b, sep);
    assert s[..|a|] == a && s[|a| + 1..] == b;
  }

  lemma SplitWhole(s: string, sep: char)
    requires sep !in s
    ensures Split(s, [sep]) == [s]
  {
    FindTextAcross(s, "", sep);
    assert s + "" == s;
  }

  lemma {:induction false} SplitJoin(parts: seq<string>, sep: char)
    requires parts != [] && forall p :: p in parts ==> sep !in p
    ensures Split(Join(parts, [sep]), [sep]) == parts
  {
    hide Split;
    assert parts[0] in parts;
    if |parts| == 1 {
      SplitWhole(parts[0], sep);
    } else {
      SplitJoin(parts[1..], sep);
      SplitFirst(parts[0], Join(parts[1..], [sep]), sep);
    }
  }

  lemma {:induction false} JoinSplit(s: string, sep: char)
    ensures Join(Split(s, [sep]), [sep]) == s
    decreases |s|
  {
    var i := FindText(s, [sep]);
    if i < |s| {
      JoinSplit(s[i + 1..], sep);
      assert s[i] == sep;
      assert s == s[..i] + [sep] + s[i + 1..];
    }
  }

  lemma {:induction false} SplitConcat(a: string, b: string, sep: char)
    ensures Split(a + [sep] + b, [sep]) == Split(a, [sep]) + Split(b, [sep])
    decreases |a|
  {
    hide Split;
    if sep !in a {
      SplitFirst(a, b, sep);
      SplitWhole(a, sep);
    } else {
      var i := FindText(a, [sep]);
      FindTextStops(a, sep);
      hide FindText;
      var head, rest := a[..i], a[i + 1..];
      assert a == head + [sep] + rest && |rest| < |a|;
      SplitConcat(rest, b, sep);
      SplitFirst(head, rest + [sep] + b, sep);
      assert a + [sep] + b == head + [sep] + (rest + [sep] + b);
      SplitFirst(head, rest, sep);
    }
  }

  lemma FindTextStops(s: string, sep: char)
    requires sep in s
    ensures var i := FindText(s, [sep]); i < |s| && s[i] == sep && sep !in s[..i]
  {
    assert s[..|s|] == s;
  }

  // ----- decimal numbers -----

  predicate IsDigit(c: char) { '0' <= c <= '9' }

  predicate AllDigits(s: string) { forall i :: 0 <= i < |s| ==> IsDigit(s[i]) }

  function DigitChar(n: nat): (c: char)
    requires n < 10
    ensures IsDigit(c) && DigitValue(c) == n
  {
    '0' + n as char
  }

  function DigitValue(c: char): nat
    requires IsDigit(c)
  {
    (c - '0') as int
  }

  function Decimal(n: nat): (s: string)
    ensures s != "" && AllDigits(s)
    ensures DecimalValue(s) == n
  {
    if n < 10 then [DigitChar(n)]
    else
      var head := Decimal(n / 10);
      var s := head + [DigitChar(n % 10)];
      assert s[..|s| - 1] == head;
      s
  }

  function DecimalValue(s: string): nat
    requires AllDigits(s)
  {
    if s == "" then 0 else 10 * DecimalValue(s[..|s| - 1]) + DigitValue(s[|s| - 1])
  }

  /** The sign in front, if any. */
  function SignOf(s: string): (sign: string)
    ensures sign <= s && sign in {"", "+", "-"}
  {
    if "-" <= s then "-" else if "+" <= s then "+" else ""
  }

  function Signed(sign: string, n: nat): int { if sign == "-" then 0 - n else n }

  /** int(): surrounding whitespace, an optional sign and decimal digits; None is ValueError. */
  function PyInt(raw: string): Option<int>
  {
    var s := Strip(raw);
    var digits := s[|SignOf(s)|..];
    if digits == "" || !AllDigits(digits) then None else Some(Signed(SignOf(s), DecimalValue(digits)))
  }

  /** `s` is digits that read as `n`. */
  predicate Reads(s: string, n: nat) { AllDigits(s) && DecimalValue(s) == n }

  lemma DigitsRead(s: string, n: nat)
    requires s != "" && Reads(s, n)
    ensures PyInt(s) == Some(n)
  {
    assert IsDigit(s[0]) && IsDigit(s[|s| - 1]);
    StripIdentity(s);
    hide Strip, DecimalValue;
  }

  lemma AppendDigit(s: string, n: nat, c: char)
    requires Reads(s, n) && IsDigit(c)
    ensures Reads(s + [c], 10 * n + DigitValue(c))
  {
    assert (s + [c])[..|s|] == s;
  }

  lemma DigitsOf(d: char)
    requires IsDigit(d)
    ensures Reads([d], DigitValue(d))
  {
    assert Reads("", 0);
    AppendDigit("", 0, d);
    assert "" + [d] == [d];
  }

  lemma SignCutsOff(sign: string, digits: string)
    requires sign in {"", "+", "-"} && digits != "" && AllDigits(digits)
    ensures var s := sign + digits; Stripped(s) && s[|sign|..] == digits && SignOf(s) == sign
  {
    var s := sign + digits;
    assert IsDigit(digits[0]) && IsDigit(digits[|digits| - 1]) && s[|s| - 1] == digits[|digits| - 1];
    assert s[0] == if sign == "" then digits[0] else sign[0];
  }

  lemma PyIntOfText(raw: string, sign: string, digits: string)
    requires sign in {"", "+", "-"} && digits != "" && AllDigits(digits) && Strip(raw) == sign + digits
    ensures PyInt(raw) == Some(Signed(sign, DecimalValue(digits)))
  {
    SignCutsOff(sign, digits);
    hide Strip, AllDigits, DecimalValue, SignOf, Signed;
  }

  /** int() reads a decimal, with a sign and white space around it. */
  lemma PyIntReads(left: string, sign: string, n: nat, right: string)
    requires Blank(left) && Blank(right) && sign in {"", "+", "-"}
    ensures PyInt(left + (sign + Decimal(n)) + right) == Some(Signed(sign, n))
  {
    hide Strip, DecimalValue, Blank, PyInt, Decimal, Stripped;
    SignCutsOff(sign, Decimal(n));
    StripPadded(left, sign + Decimal(n), right);
    PyIntOfText(left + (sign + Decimal(n)) + right, sign, Decimal(n));
  }
}
