/**
 * The text of the parser's diagnostics: Java's decimal rendering of an `int`
 * and the message shape `report_error` builds.
 */
module TwigErrors {

  import opened Wrappers
  import opened JavaInt
  import opened TwigAst

  predicate IsDigit(c: char) {
    '0' <= c <= '9'
  }

  function DigitChar(d: nat): (c: char)
    requires d < 10
    ensures IsDigit(c) && c as int - '0' as int == d
  {
    (d + '0' as int) as char
  }

  /** Decimal digits of `n`, most significant first, without leading zeros. */
  function NatToString(n: nat): (s: string)
    ensures |s| > 0 && forall i :: 0 <= i < |s| ==> IsDigit(s[i])
    ensures s[0] == '0' ==> n == 0
    decreases n
  {
    if n < 10 then [DigitChar(n)] else NatToString(n / 10) + [DigitChar(n % 10)]
  }

  /** `Integer.toString`: an optional minus sign and the decimal digits of the magnitude. */
  function IntToString(i: int): string {
    if i < 0 then "-" + NatToString(-i) else NatToString(i)
  }

  /** The value of a string of decimal digits. */
  function DecimalValue(s: string): nat
    requires forall i :: 0 <= i < |s| ==> IsDigit(s[i])
  {
    if |s| == 0 then 0
    else
      assert IsDigit(s[|s| - 1]);
      DecimalValue(s[..|s| - 1]) * 10 + (s[|s| - 1] as int - '0' as int)
  }

  /** Reading back a Java integer literal, with an optional leading minus sign. */
  function ParseInt(s: string): Option<int> {
    if |s| > 0 && s[0] == '-' then
      if |s| > 1 && forall i :: 1 <= i < |s| ==> IsDigit(s[i]) then Some(0 - DecimalValue(s[1..]) as int) else None
    else if |s| > 0 && forall i :: 0 <= i < |s| ==> IsDigit(s[i]) then Some(DecimalValue(s))
    else None
  }

  lemma {:induction false} NatToStringRoundTrip(n: nat)
    ensures DecimalValue(NatToString(n)) == n
    decreases n
  {
    if n >= 10 {
      NatToStringRoundTrip(n / 10);
      var s := NatToString(n);
      assert s[..|s| - 1] == NatToString(n / 10);
    }
  }

  /** A non-empty run of digits reads back as its decimal value. */
  lemma {:induction false} ParseDigits(s: string)
    requires |s| > 0 && forall i :: 0 <= i < |s| ==> IsDigit(s[i])
    ensures ParseInt(s) == Some(DecimalValue(s))
  {
    assert IsDigit(s[0]);
  }

  /** A minus sign and a non-empty run of digits read back as the negated decimal value. */
  lemma {:induction false} ParseNegativeDigits(s: string)
    requires |s| > 0 && forall i :: 0 <= i < |s| ==> IsDigit(s[i])
    ensures ParseInt("-" + s) == Some(0 - DecimalValue(s))
  {
    var t := "-" + s;
    assert t[1..] == s;
    assert forall i :: 1 <= i < |t| ==> t[i] == s[i - 1];
  }

  /** The rendered integer reads back as itself. */
  lemma {:induction false} IntToStringRoundTrip(i: int)
    ensures ParseInt(IntToString(i)) == Some(i)
  {
    if i < 0 {
      assert ParseInt("-" + NatToString(-i)) == Some(i) by {
        NatToStringRoundTrip(-i);
        ParseNegativeDigits(NatToString(-i));
      }
    } else {
      assert ParseInt(NatToString(i)) == Some(i) by {
        NatToStringRoundTrip(i);
        ParseDigits(NatToString(i));
      }
    }
  }

  /** What `report_error` is given as its `info` argument: a CUP symbol, or any other object. */
  datatype Info = SymbolInfo(sym: Symbol) | OtherInfo

  /** A position as the diagnostic prints it: Java's `p + 1`. */
  function Shown(p: Int32): string {
    IntToString(AddInt32(p, 1))
  }

  /**
   * What `report_error` puts before the message: the line (`left + 1`) when
   * `left >= 0`, and the column (`right + 1`) when also `right >= 0`.
   */
  function ErrorHead(info: Info): string {
    if info.SymbolInfo? && info.sym.left >= 0 then
      if info.sym.right >= 0 then "Error in line " + Shown(info.sym.left) + ", column " + Shown(info.sym.right)
      else "Error in line " + Shown(info.sym.left)
    else "Error"
  }

  /** The diagnostic text `report_error` builds for `message` and `info`. */
  function ErrorText(message: string, info: Info): string {
    ErrorHead(info) + " : " + message
  }

  /** Appending the line part to "Error" gives the head `ErrorHead` spells out. */
  lemma {:induction false} LineAppended(line: string)
    ensures "Error" + (" in line " + line) == "Error in line " + line
  {
    assert "Error" + " in line " == "Error in line ";
  }

  /** Appending the column part and then the message, piece by piece, as `report_error` does. */
  lemma {:induction false} PartAppended(head: string, sep: string, part: string)
    ensures head + (sep + part) == head + sep + part
  {
  }

  /** Every diagnostic starts with "Error" and ends with " : " and the message. */
  lemma {:induction false} ErrorTextFrame(message: string, info: Info)
    ensures var t := ErrorText(message, info);
            |t| >= 5 + 3 + |message| && t[..5] == "Error" && t[|t| - |message| - 3..] == " : " + message
  {
    var head := ErrorHead(info);
    assert head[..5] == "Error" by {
      assert |head| >= 5;
    }
    FramedBy(head, message);
  }

  /** Appending " : " and the message keeps the head in front and the message at the end. */
  lemma {:induction false} FramedBy(head: string, message: string)
    requires |head| >= 5
    ensures var t := head + " : " + message;
            |t| == |head| + 3 + |message| && t[..5] == head[..5] && t[|t| - |message| - 3..] == " : " + message
  {
    var t := head + " : " + message;
    assert t[|head|..] == " : " + message;
  }

  /** Without a symbol, or with a negative `left`, the diagnostic is just "Error : message". */
  lemma {:induction false} ErrorTextWithoutPosition(message: string, info: Info)
    requires !info.SymbolInfo? || info.sym.left < 0
    ensures ErrorText(message, info) == "Error : " + message
  {
  }

  /** Below the largest `int`, a position is printed as the decimal digits of `p + 1`. */
  lemma {:induction false} ShownReadsBack(p: Int32)
    requires p < MaxInt32
    ensures ParseInt(Shown(p)) == Some(p + 1)
  {
    assert AddInt32(p, 1) == p + 1;
    IntToStringRoundTrip(p + 1);
  }

  /** The column part `report_error` appends after the line: ", column " and `right + 1`, when `right >= 0`. */
  function ColumnText(right: Int32): string {
    if right >= 0 then ", column " + Shown(right) else ""
  }

  /**
   * What the column part means: nothing when `right < 0`, otherwise
   * ", column " and the decimal digits of Java's `right + 1`.
   */
  predicate ColumnPart(column: string, right: Int32) {
    if right < 0 then column == ""
    else |column| > 9 && column[..9] == ", column " && ParseInt(column[9..]) == Some(AddInt32(right, 1))
  }

  /** The column text reads back as `ColumnPart` describes it. */
  lemma {:induction false} ColumnPartShown(right: Int32)
    ensures ColumnPart(ColumnText(right), right)
  {
    if right >= 0 {
      var column := ", column " + Shown(right);
      assert column[9..] == Shown(right);
      IntToStringRoundTrip(AddInt32(right, 1));
    }
  }

  /** With `left >= 0` the diagnostic is the line part, the column part and the message. */
  lemma {:induction false} ErrorTextWithLine(message: string, sym: Symbol)
    requires sym.left >= 0
    ensures ErrorText(message, SymbolInfo(sym)) == "Error in line " + Shown(sym.left) + ColumnText(sym.right) + " : " + message
  {
    var line := Shown(sym.left);
    if sym.right < 0 {
      assert "Error in line " + line + "" == "Error in line " + line;
    }
  }

  /** At the largest `int` the position printed wraps to the smallest one. */
  lemma {:induction false} ShownWraps(p: Int32)
    requires p == MaxInt32
    ensures ParseInt(Shown(p)) == Some(MinInt32)
  {
    var wrapped := AddInt32(p, 1);
    assert wrapped == MinInt32;
    IntToStringRoundTrip(wrapped);
  }

  /**
   * With `0 <= left < MaxInt32` the diagnostic names line `left + 1`, read back
   * from its digits, followed by the column part.
   */
  lemma {:induction false} ErrorTextPosition(message: string, sym: Symbol)
    requires 0 <= sym.left < MaxInt32
    ensures ErrorText(message, SymbolInfo(sym)) == "Error in line " + Shown(sym.left) + ColumnText(sym.right) + " : " + message
    ensures ParseInt(Shown(sym.left)) == Some(sym.left + 1)
    ensures ColumnPart(ColumnText(sym.right), sym.right)
  {
    ErrorTextWithLine(message, sym);
    ColumnPartShown(sym.right);
    ShownReadsBack(sym.left);
  }

  /**
   * Java's `left + 1` overflows at the largest `int`: the line printed is then
   * the smallest `int`, followed by the column part as usual.
   */
  lemma {:induction false} ErrorTextLineWraps(message: string, sym: Symbol)
    requires sym.left == MaxInt32
    ensures ErrorText(message, SymbolInfo(sym)) == "Error in line " + Shown(sym.left) + ColumnText(sym.right) + " : " + message
    ensures ParseInt(Shown(sym.left)) == Some(MinInt32)
    ensures ColumnPart(ColumnText(sym.right), sym.right)
  {
    ErrorTextWithLine(message, sym);
    ColumnPartShown(sym.right);
    ShownWraps(sym.left);
  }
}
