/** Types and notions every component shares: 64-bit sizes, names, and the total of a ledger. */
module Common {

  /** An unsigned 64-bit quantity.  A field or variable of this type carries the obligation that
      the arithmetic assigned to it does not wrap. */
  type Bytes = x: int | 0 <= x <= 0xFFFF_FFFF_FFFF_FFFF

  const MAX_BYTES: Bytes := 0xFFFF_FFFF_FFFF_FFFF

  /** What 64-bit arithmetic makes of an exact result. */
  function Wrap(x: int): (w: Bytes)
    ensures 0 <= x <= MAX_BYTES ==> w == x
  {
    x % 0x1_0000_0000_0000_0000
  }

  datatype Option<+T> = None | Some(value: T)

  predicate NameChar(c: char) {
    'a' <= c <= 'z' || 'A' <= c <= 'Z' || '0' <= c <= '9' || c == '_' || c == '-' || c == '.'
  }

  predicate ValidName(name: string) {
    0 < |name| <= 64 && forall i :: 0 <= i < |name| ==> NameChar(name[i])
  }

  /** The same in character codes: digits, capital and small letters, hyphen, full stop, underscore. */
  lemma ValidNameIff(name: string)
    ensures ValidName(name) <==>
      && 1 <= |name| <= 64
      && forall i :: 0 <= i < |name| ==>
           var code := name[i] as int;
           48 <= code <= 57 || 65 <= code <= 90 || 97 <= code <= 122 || code in {45, 46, 95}
  {
  }

  /** The map insertion that leaves an existing entry alone. */
  function Emplace<V>(m: map<string, V>, key: string, value: V): map<string, V> {
    if key in m then m else m[key := value]
  }

  /** The sum of all entries of a ledger. */
  ghost function Total(m: map<string, Bytes>): nat
    decreases |m|
  {
    if m == map[] then 0 else
      var k :| k in m;
      assert |m - {k}| < |m| by { Shrinks(m, k); }
      m[k] + Total(m - {k})
  }

  lemma Shrinks<V>(m: map<string, V>, k: string)
    requires k in m
    ensures |m - {k}| == |m| - 1
  {
    assert (m - {k}).Keys == m.Keys - {k};
  }

  /** Which entry is taken out first does not matter. */
  lemma {:induction false} TotalWithout(m: map<string, Bytes>, k: string)
    requires k in m
    ensures Total(m) == m[k] + Total(m - {k})
    decreases |m|
  {
    var first :| first in m && Total(m) == m[first] + Total(m - {first});
    if first != k {
      Shrinks(m, first);
      Shrinks(m, k);
      TotalWithout(m - {first}, k);
      TotalWithout(m - {k}, first);
      assert m - {first} - {k} == m - {k} - {first};
    }
  }

  lemma TotalWith(m: map<string, Bytes>, k: string, v: Bytes)
    requires k !in m
    ensures Total(m[k := v]) == Total(m) + v
  {
    TotalWithout(m[k := v], k);
    assert m[k := v] - {k} == m;
  }
}
