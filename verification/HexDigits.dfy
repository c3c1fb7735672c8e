/** Hexadecimal digits, in either case. */
module HexDigits {

  /** The value of a digit, and -1 for every other character. */
  function HexValue(c: char): (r: int)
    ensures -1 <= r < 16
  {
    if '0' <= c <= '9' then c as int - '0' as int
    else if 'a' <= c <= 'f' then c as int - 'a' as int + 10
    else if 'A' <= c <= 'F' then c as int - 'A' as int + 10
    else -1
  }

  predicate IsHex(c: char) {
    HexValue(c) >= 0
  }

  /** The sixteen digits in order, in lower and in upper case. */
  lemma HexTable(v: nat)
    requires v < 16
    ensures HexValue("0123456789abcdef"[v]) == v && HexValue("0123456789ABCDEF"[v]) == v
  {
    var lower, upper := "0123456789abcdef", "0123456789ABCDEF";
    assert v == 0 || v == 1 || v == 2 || v == 3 || v == 4 || v == 5 || v == 6 || v == 7 || v >= 8;
    assert v >= 8 ==> v == 8 || v == 9 || v == 10 || v == 11 || v == 12 || v == 13 || v == 14 || v == 15;
    assert lower[v] == (if v < 10 then '0' + v as char else 'a' + (v - 10) as char);
    assert upper[v] == (if v < 10 then '0' + v as char else 'A' + (v - 10) as char);
  }
}
