/** Connection names: the server's name and a number, squeezed through a 64-byte buffer. */
module ServerNames {
  import opened Text

  /** snprintf into char[64] keeps 63 characters. */
  const NAME_ROOM := 63

  /** next_conn_id_ is a 32-bit int: counting beyond this is undefined in the source. */
  const INT_MAX: nat := 0x7FFF_FFFF

  function Suffix(ipPort: string, id: nat): string {
    "-" + ipPort + "#" + Decimal(id)
  }

  function ConnName(server: string, ipPort: string, id: nat): string {
    var s := Suffix(ipPort, id);
    server + if |s| <= NAME_ROOM then s else s[..NAME_ROOM]
  }

  /** The name in full where it fits, and its first 63 characters behind the server's name otherwise. */
  lemma NameIs(server: string, ipPort: string, id: nat)
    requires id <= INT_MAX
    ensures |ipPort| <= 51 ==> ConnName(server, ipPort, id) == server + "-" + ipPort + "#" + Decimal(id)
    ensures |ipPort| >= 62 ==> ConnName(server, ipPort, id) == server + "-" + ipPort[..62]
  {
    TenDigits(id);
    var s := Suffix(ipPort, id);
    if |ipPort| <= 51 {
      assert server + s == server + "-" + ipPort + "#" + Decimal(id);
    } else if |ipPort| >= 62 {
      assert s[..63] == "-" + ipPort[..62];
      assert server + ("-" + ipPort[..62]) == server + "-" + ipPort[..62];
    }
  }

  lemma {:induction false} DecimalLength(n: nat, k: nat, bound: nat)
    requires k > 0 && n < bound && bound == Pow10(k)
    ensures |Decimal(n)| <= k
  {
    if n >= 10 {
      DecimalLength(n / 10, k - 1, Pow10(k - 1));
    }
  }

  function Pow10(k: nat): nat {
    if k == 0 then 1 else 10 * Pow10(k - 1)
  }

  lemma TenDigits(id: nat)
    requires id <= INT_MAX
    ensures |Decimal(id)| <= 10
  {
    assert Pow10(5) == 10 * Pow10(4) == 100_000;
    assert Pow10(10) == 10 * Pow10(9) == 100 * Pow10(8) == 1000 * Pow10(7) == 10_000 * Pow10(6) == 100_000 * Pow10(5);
    DecimalLength(id, 10, Pow10(10));
  }

  predicate NamesUnique(server: string, ipPort: string) {
    forall i: nat, j: nat | i < j <= INT_MAX :: ConnName(server, ipPort, i) != ConnName(server, ipPort, j)
  }

  lemma NamesDiffer(server: string, ipPort: string, i: nat, j: nat)
    requires |ipPort| <= 51 && i < j <= INT_MAX
    ensures ConnName(server, ipPort, i) != ConnName(server, ipPort, j)
  {
    TenDigits(i);
    TenDigits(j);
    var head := "-" + ipPort + "#";
    var m, n := ConnName(server, ipPort, i), ConnName(server, ipPort, j);
    assert m == server + (head + Decimal(i)) && n == server + (head + Decimal(j));
    if m == n {
      assert m[|server| + |head|..] == Decimal(i);
      assert n[|server| + |head|..] == Decimal(j);
      DecimalInjective(i, j);
    }
  }

  lemma LongAddressCollides(server: string, ipPort: string)
    requires |ipPort| >= 52
    ensures ConnName(server, ipPort, 1_000_000_000) == ConnName(server, ipPort, 1_000_000_001)
  {
    var d := Decimal(100_000_000);
    assert Decimal(1_000_000_000) == d + ['0'];
    assert Decimal(1_000_000_001) == d + ['1'];
    assert |d| == 9 by {
      NineDigits();
    }
    var a, b := Suffix(ipPort, 1_000_000_000), Suffix(ipPort, 1_000_000_001);
    var head := "-" + ipPort + "#" + d;
    assert a == head + ['0'] && b == head + ['1'];
    assert |head| >= 63;
    assert a[..63] == head[..63] == b[..63];
  }

  lemma NineDigits()
    ensures |Decimal(100_000_000)| == 9
  {
    assert |Decimal(1000)| == 1 + |Decimal(100)| == 4;
    assert |Decimal(1_000_000)| == 1 + |Decimal(100_000)| == 2 + |Decimal(10_000)| == 3 + |Decimal(1000)|;
    assert |Decimal(100_000_000)| == 1 + |Decimal(10_000_000)| == 2 + |Decimal(1_000_000)|;
  }

  /** Names tell connections apart, for every number the counter can hold, exactly when the listening
      address is at most 51 characters long - as every dotted IPv4 address with its port is. */
  lemma NamesUniqueIff(server: string, ipPort: string)
    ensures NamesUnique(server, ipPort) <==> |ipPort| <= 51
  {
    if |ipPort| <= 51 {
      forall i: nat, j: nat | i < j <= INT_MAX
        ensures ConnName(server, ipPort, i) != ConnName(server, ipPort, j)
      {
        NamesDiffer(server, ipPort, i, j);
      }
    } else {
      LongAddressCollides(server, ipPort);
      var i, j := 1_000_000_000, 1_000_000_001;
      assert i < j <= INT_MAX && ConnName(server, ipPort, i) == ConnName(server, ipPort, j);
    }
  }
}
