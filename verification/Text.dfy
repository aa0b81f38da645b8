/**
 Strings as the gateway uses them: the byte-wise order of its sorted maps, the
 decimal numbers of its page tokens, and the UTF-8 length its bounds are stated in.
 */
module Text {

  /** Lexicographic order by code point, which is the byte order of UTF-8 text. */
  predicate Below(a: string, b: string)
  {
    if a == "" then true
    else if b == "" then false
    else a[0] < b[0] || (a[0] == b[0] && Below(a[1..], b[1..]))
  }

  lemma {:induction false} BelowReflexive(a: string)
    ensures Below(a, a)
  {
    if a != "" {
      BelowReflexive(a[1..]);
    }
  }

  lemma {:induction false} BelowTotal(a: string, b: string)
    ensures Below(a, b) || Below(b, a)
  {
    if a != "" && b != "" {
      BelowTotal(a[1..], b[1..]);
    }
  }

  lemma {:induction false} BelowAntisymmetric(a: string, b: string)
    requires Below(a, b) && Below(b, a)
    ensures a == b
  {
    if a != "" && b != "" {
      BelowAntisymmetric(a[1..], b[1..]);
      assert a == [a[0]] + a[1..] && b == [b[0]] + b[1..];
    }
  }

  lemma {:induction false} BelowTransitive(a: string, b: string, c: string)
    requires Below(a, b) && Below(b, c)
    ensures Below(a, c)
  {
    if a != "" && a[0] == b[0] && b[0] == c[0] {
      BelowTransitive(a[1..], b[1..], c[1..]);
    }
  }

  /** A strictly increasing list of keys: the iteration order of a sorted map. */
  predicate Ascending(keys: seq<string>)
  {
    forall i, j :: 0 <= i < j < |keys| ==> Below(keys[i], keys[j]) && keys[i] != keys[j]
  }

  /** A non-empty finite set of keys has a least key. */
  lemma {:induction false} LeastKey(keys: set<string>) returns (least: string)
    requires keys != {}
    ensures least in keys && forall k :: k in keys ==> Below(least, k)
    decreases |keys|
  {
    var k :| k in keys;
    var rest := keys - {k};
    BelowReflexive(k);
    if rest == {} {
      assert keys == {k};
      return k;
    }
    var m := LeastKey(rest);
    BelowTotal(k, m);
    least := if Below(k, m) then k else m;
    forall x | x in keys ensures Below(least, x) {
      if x != k {
        BelowTransitive(least, m, x) by { BelowReflexive(m); }
      }
    }
  }

  /** The keys of a sorted map in iteration order. */
  method SortKeys(keys: set<string>) returns (sorted: seq<string>)
    ensures Ascending(sorted)
    ensures forall k :: k in sorted <==> k in keys
  {
    sorted := [];
    var rest := keys;
    while rest != {}
      invariant rest <= keys
      invariant Ascending(sorted)
      invariant forall k :: k in keys <==> k in sorted || k in rest
      invariant forall k, r :: k in sorted && r in rest ==> Below(k, r) && k != r
      decreases |rest|
    {
      ghost var m := LeastKey(rest);
      var least :| least in rest && forall k :: k in rest ==> Below(least, k);
      sorted := sorted + [least];
      rest := rest - {least};
    }
  }

  /** Two strictly increasing lists with the same keys are the same list. */
  lemma {:induction false} AscendingUnique(a: seq<string>, b: seq<string>)
    requires Ascending(a) && Ascending(b)
    requires forall k :: k in a <==> k in b
    ensures a == b
  {
    assert b != [] ==> b[0] in a;
    if a == [] {
      assert b == [];
    } else {
      assert a[0] in b;
      assert b[0] in a;
      assert a[0] == b[0] by {
        var i :| 0 <= i < |b| && b[i] == a[0];
        var j :| 0 <= j < |a| && a[j] == b[0];
        if i != 0 {
          assert Below(b[0], a[0]) && Below(a[0], b[0]);
          BelowAntisymmetric(a[0], b[0]);
        }
      }
      forall k ensures k in a[1..] <==> k in b[1..] {
        assert k in a <==> k == a[0] || k in a[1..];
        assert k in b <==> k == b[0] || k in b[1..];
        assert a[0] !in a[1..] && b[0] !in b[1..];
      }
      AscendingUnique(a[1..], b[1..]);
      assert a == [a[0]] + a[1..] && b == [b[0]] + b[1..];
    }
  }

  /** The iteration order of a sorted map with these keys. */
  ghost function Sorted(keys: set<string>): (sorted: seq<string>)
    ensures Ascending(sorted)
    ensures forall k :: k in sorted <==> k in keys
  {
    SortedExists(keys);
    var sorted :| Ascending(sorted) && forall k :: k in sorted <==> k in keys;
    sorted
  }

  lemma {:induction false} SortedExists(keys: set<string>)
    ensures exists sorted: seq<string> :: Ascending(sorted) && forall k :: k in sorted <==> k in keys
    decreases |keys|
  {
    if keys == {} {
      var sorted: seq<string> := [];
      assert Ascending(sorted) && forall k :: k in sorted <==> k in keys;
    } else {
      var least := LeastKey(keys);
      SortedExists(keys - {least});
      var tail: seq<string> :| Ascending(tail) && forall k :: k in tail <==> k in keys - {least};
      var sorted := [least] + tail;
      assert forall k :: k in sorted <==> k in keys;
      assert Ascending(sorted);
    }
  }

  // -- Decimal page tokens --------------------------------------------------

  function DigitChar(d: nat): char
    requires d < 10
  {
    '0' + d as char
  }

  predicate IsDigit(c: char) { '0' <= c <= '9' }

  function DigitValue(c: char): nat
    requires IsDigit(c)
  {
    c as nat - '0' as nat
  }

  /** `usize::to_string`. */
  function Decimal(n: nat): (s: string)
    ensures s != "" && forall i :: 0 <= i < |s| ==> IsDigit(s[i])
    decreases n
  {
    if n < 10 then [DigitChar(n)] else Decimal(n / 10) + [DigitChar(n % 10)]
  }

  function DigitsValue(s: string): nat
    requires forall i :: 0 <= i < |s| ==> IsDigit(s[i])
  {
    if s == "" then 0 else 10 * DigitsValue(s[..|s| - 1]) + DigitValue(s[|s| - 1])
  }

  datatype ParsedNumber = NotANumber | Number(value: nat)

  const MAX_USIZE: nat := 0xFFFF_FFFF_FFFF_FFFF

  /** `str::parse::<usize>`: an optional plus sign and at least one digit, within 64 bits. */
  function ParseUsize(s: string): ParsedNumber
  {
    var digits := if s != "" && s[0] == '+' then s[1..] else s;
    if digits == "" || exists i :: 0 <= i < |digits| && !IsDigit(digits[i]) then NotANumber
    else if DigitsValue(digits) > MAX_USIZE then NotANumber
    else Number(DigitsValue(digits))
  }

  lemma {:induction false} DecimalValue(n: nat)
    ensures DigitsValue(Decimal(n)) == n
  {
    if n < 10 {
      assert Decimal(n)[..|Decimal(n)| - 1] == "";
    } else {
      DecimalValue(n / 10);
      assert Decimal(n)[..|Decimal(n)| - 1] == Decimal(n / 10);
    }
  }

  /** A page token the runtime wrote is read back as the offset it was written from. */
  lemma ParseDecimal(n: nat)
    requires n <= MAX_USIZE
    ensures ParseUsize(Decimal(n)) == Number(n)
  {
    DecimalValue(n);
  }

  lemma {:induction false} DecimalLength(n: nat, digits: nat, bound: nat)
    requires digits >= 1 && bound == PowerOfTen(digits) && n < bound
    ensures |Decimal(n)| <= digits
    decreases digits
  {
    if n >= 10 {
      DecimalLength(n / 10, digits - 1, PowerOfTen(digits - 1));
    }
  }

  function PowerOfTen(k: nat): nat { if k == 0 then 1 else 10 * PowerOfTen(k - 1) }

  // -- UTF-8 lengths ----------------------------------------------------------

  function Utf8Length(s: string): nat
  {
    if s == "" then 0 else Utf8Length(s[..|s| - 1]) + CharBytes(s[|s| - 1])
  }

  function CharBytes(c: char): nat
  {
    var code := c as nat;
    if code < 0x80 then 1 else if code < 0x800 then 2 else if code < 0x1_0000 then 3 else 4
  }
}
