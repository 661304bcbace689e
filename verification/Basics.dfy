/** What several models share. */
module Basics {

  datatype Option<+T> = None | Some(value: T)

  type Byte = x: int | 0 <= x < 256

  /** The pieces put together. */
  function Join(pieces: seq<string>): string {
    if pieces == [] then "" else pieces[0] + Join(pieces[1..])
  }

  function Min(a: nat, b: nat): nat {
    if a < b then a else b
  }

  predicate IsSpace(c: char) {
    c == ' ' || '\t' <= c <= '\r'
  }

  /** The value of a hexadecimal digit. */
  function HexValue(c: char): Option<nat> {
    if '0' <= c <= '9' then Some(c as nat - '0' as nat)
    else if 'a' <= c <= 'f' then Some(c as nat - 'a' as nat + 10)
    else if 'A' <= c <= 'F' then Some(c as nat - 'A' as nat + 10)
    else None
  }

  const NUMERALS := "0123456789"
  const CAPITALS := "ABCDEFGHIJKLMNOPQRSTUVWXYZ"
  const SMALLS := "abcdefghijklmnopqrstuvwxyz"

  lemma InOrder(v: nat)
    ensures v < 26 ==> CAPITALS[v] == 'A' + v as char && SMALLS[v] == 'a' + v as char
    ensures v < 10 ==> NUMERALS[v] == '0' + v as char
  {
  }
}
