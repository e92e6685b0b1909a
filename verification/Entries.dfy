/** Service entries and the strings they are filed under (node/node.go getUri, getUri2). */
module Entries {

  /** An entry as it travels between nodes: `isNew` distinguishes an addition from a withdrawal.
      The entry type is an open enumeration, so any 32-bit value may arrive. */
  datatype EntryInfo = EntryInfo(uri: string, entryType: int, isNew: bool)

  type EntryMap = map<string, EntryInfo>

  function Digits(n: nat): (s: string)
  {
    if n < 10 then [('0' as int + n) as char]
    else Digits(n / 10) + [('0' as int + n % 10) as char]
  }

  /** The name of an entry type: a declared name, or the number itself. */
  function TypeName(t: int): string
  {
    if t == 0 then "INVALIDATE"
    else if t == 1 then "HTTP"
    else if t == 2 then "RPC"
    else if t < 0 then "-" + Digits(-t)
    else Digits(t)
  }

  function Key(uri: string, t: int): string
  {
    uri + "_" + TypeName(t)
  }

  function KeyOf(e: EntryInfo): string
  {
    Key(e.uri, e.entryType)
  }

  // ---- Keys determine their entries ----

  /** Reading the digits back: the partner of Digits. */
  function Number(s: string): int
  {
    if s == [] then 0 else 10 * Number(s[..|s| - 1]) + (s[|s| - 1] as int - '0' as int)
  }

  lemma {:induction false} NumberOfDigits(n: nat)
    ensures Number(Digits(n)) == n
    ensures |Digits(n)| > 0
    ensures forall i :: 0 <= i < |Digits(n)| ==> '0' <= Digits(n)[i] <= '9'
  {
    if n < 10 {
      assert Digits(n)[..0] == [];
    } else {
      NumberOfDigits(n / 10);
      var s := Digits(n);
      assert s[..|s| - 1] == Digits(n / 10);
    }
  }

  lemma TypeNameHasNoUnderscore(t: int)
    ensures '_' !in TypeName(t)
  {
    if t < 0 {
      NumberOfDigits(-t);
    } else if t > 2 {
      NumberOfDigits(t);
    }
  }

  lemma TypeNameInjective(t: int, u: int)
    requires TypeName(t) == TypeName(u)
    ensures t == u
  {
    TypeNameShape(t);
    TypeNameShape(u);
    if t < 0 && u < 0 {
      assert TypeName(t)[1..] == Digits(-t) && TypeName(u)[1..] == Digits(-u);
    }
  }

  lemma TypeNameShape(t: int)
    ensures TypeName(t) != []
    ensures t < 0 ==> TypeName(t)[0] == '-' && Number(Digits(-t)) == -t
    ensures 0 <= t <= 2 ==> TypeName(t)[0] == ['I', 'H', 'R'][t]
    ensures t > 2 ==> '0' <= TypeName(t)[0] <= '9' && Number(TypeName(t)) == t
  {
    if t < 0 {
      NumberOfDigits(-t);
    } else if t > 2 {
      NumberOfDigits(t);
    }
  }

  /** Two entries share a key only if they are the same URI and the same type,
      although the URI itself may contain underscores and type names. */
  lemma {:induction false} KeyInjective(u: string, t: int, v: string, w: int)
    requires Key(u, t) == Key(v, w)
    ensures u == v && t == w
  {
    TypeNameHasNoUnderscore(t);
    TypeNameHasNoUnderscore(w);
    var k := Key(u, t);
    assert k[|u|] == '_' && k[|v|] == '_';
    assert forall i :: |u| < i < |k| ==> k[i] == TypeName(t)[i - |u| - 1];
    assert forall i :: |v| < i < |k| ==> k[i] == TypeName(w)[i - |v| - 1];
    assert |u| == |v|;
    assert u == k[..|u|] && v == k[..|v|];
    assert TypeName(t) == k[|u| + 1..] && TypeName(w) == k[|v| + 1..];
    TypeNameInjective(t, w);
  }
}
