/** Overlay address management: the least free host address, with a cooldown
    pool that keeps freed addresses out of circulation. */
module Ipam {
  import opened Wrappers
  import opened Wire
  import opened StoreState

  function Pow2(n: nat): (r: nat)
    ensures r >= 1
  {
    if n == 0 then 1 else 2 * Pow2(n - 1)
  }

  /** Clears the low bits: the multiple of size just below addr. */
  function Mask(addr: IPv4, size: nat): (r: IPv4)
    requires size >= 1
    ensures r <= addr < r + size && exists q: nat :: r == q * size
  {
    var q := addr / size;
    assert q >= 0;
    assert addr == q * size + addr % size;
    q * size
  }

  datatype Prefix = Prefix(addr: IPv4, bits: nat) {
    ghost predicate Valid() {
      bits <= 32 && addr < Pow2(32)
    }

    function Size(): nat
      requires bits <= 32
    {
      Pow2(32 - bits)
    }

    /** Masked().Addr() */
    function Network(): IPv4
      requires bits <= 32
    {
      Mask(addr, Size())
    }

    function Broadcast(): int
      requires bits <= 32
    {
      Network() + Size() - 1
    }
  }

  /** Host addresses: network, network+1 (the hub's) and broadcast are never handed out. */
  predicate IsHost(p: Prefix, ip: IPv4)
    requires p.bits <= 32
  {
    p.Network() + 1 < ip < p.Broadcast()
  }

  function FirstFree(used: set<IPv4>, lo: IPv4, hi: int): Option<IPv4>
    decreases hi - lo
  {
    if lo >= hi then None else if lo !in used then Some(lo) else FirstFree(used, lo + 1, hi)
  }

  /** DELETE FROM ip_cooldown WHERE freed_at < cutoff */
  function Prune(t: Tables, cutoff: int): Tables {
    t.(cooldown := map o | o in t.cooldown && t.cooldown[o] >= cutoff :: t.cooldown[o])
  }

  ghost predicate ActiveIP(t: Tables, ip: IPv4) {
    exists n :: n in t.nodes && !t.nodes[n].revoked && t.nodes[n].overlay == Active(ip)
  }

  ghost predicate Cooling(t: Tables, ip: IPv4, cutoff: int) {
    Active(ip) in t.cooldown && t.cooldown[Active(ip)] >= cutoff
  }

  /** The addresses AllocateIP collects before it scans. */
  function Used(t: Tables): set<IPv4> {
    (set n | n in t.nodes && !t.nodes[n].revoked && t.nodes[n].overlay.Active? :: t.nodes[n].overlay.ip)
    + (set o | o in t.cooldown && o.Active? :: o.ip)
  }

  /** AllocateIP: the pruned tables and the chosen address. */
  function Allocate(t: Tables, p: Prefix, cooldown: int, now: int): (Tables, Option<IPv4>)
    requires p.bits <= 32
  {
    var t' := Prune(t, now - cooldown);
    (t', FirstFree(Used(t'), p.Network() + 2, p.Broadcast()))
  }

  ghost predicate Free(t: Tables, p: Prefix, cooldown: int, now: int, ip: IPv4)
    requires p.bits <= 32
  {
    IsHost(p, ip) && !ActiveIP(t, ip) && !Cooling(t, ip, now - cooldown)
  }

  lemma {:induction false} FirstFreeIsLeast(used: set<IPv4>, lo: IPv4, hi: int)
    ensures match FirstFree(used, lo, hi)
            case Some(ip) => lo <= ip < hi && ip !in used && forall j | lo <= j < ip :: j in used
            case None => forall j | lo <= j < hi :: j in used
    decreases hi - lo
  {
    if lo < hi && lo in used {
      FirstFreeIsLeast(used, lo + 1, hi);
    }
  }

  lemma UsedAfterPrune(t: Tables, cutoff: int, ip: IPv4)
    ensures ip in Used(Prune(t, cutoff)) <==> ActiveIP(t, ip) || Cooling(t, ip, cutoff)
  {
    var t' := Prune(t, cutoff);
    if ip in Used(t') && !Cooling(t, ip, cutoff) {
      var n :| n in t'.nodes && !t'.nodes[n].revoked && t'.nodes[n].overlay.Active? && t'.nodes[n].overlay.ip == ip;
      assert t.nodes[n].overlay == Active(ip);
    }
    if Cooling(t, ip, cutoff) {
      assert Active(ip) in t'.cooldown;
    }
  }

  /** The answer is the least free host address, and there is one unless none exists. */
  lemma AllocateIsLeastFree(t: Tables, p: Prefix, cooldown: int, now: int)
    requires p.bits <= 32
    ensures match Allocate(t, p, cooldown, now).1
            case Some(ip) => Free(t, p, cooldown, now, ip) && forall j | Free(t, p, cooldown, now, j) :: ip <= j
            case None => forall j :: !Free(t, p, cooldown, now, j)
  {
    var cutoff := now - cooldown;
    FirstFreeIsLeast(Used(Prune(t, cutoff)), p.Network() + 2, p.Broadcast());
    forall j ensures j in Used(Prune(t, cutoff)) <==> ActiveIP(t, j) || Cooling(t, j, cutoff) {
      UsedAfterPrune(t, cutoff, j);
    }
  }

  // ---- the broadcast address, bit by bit ----

  /** b |= 1 << k on one byte. */
  function SetBit(b: nat, k: nat): nat {
    if b / Pow2(k) % 2 == 1 then b else b + Pow2(k)
  }

  function AddressOf(a: seq<nat>): nat
    requires |a| == 4
  {
    a[0] * 0x100_0000 + a[1] * 0x1_0000 + a[2] * 0x100 + a[3]
  }

  /** Addr.As4() */
  function Bytes(ip: IPv4): (a: seq<nat>)
    requires ip < 0x1_0000_0000
    ensures |a| == 4 && AddressOf(a) == ip && forall k | 0 <= k < 4 :: a[k] < 0x100
  {
    var x, y, z := ip / 0x100, ip / 0x1_0000, ip / 0x100_0000;
    assert ip == x * 0x100 + ip % 0x100 && x == y * 0x100 + x % 0x100 && y == z * 0x100 + y % 0x100;
    [z, y % 0x100, x % 0x100, ip % 0x100]
  }

  /** How many of the first i bits fall into byte k. */
  function BitsIn(i: nat, k: nat): (r: nat)
    ensures r <= 8
  {
    if i <= 8 * k then 0 else if i - 8 * k >= 8 then 8 else i - 8 * k
  }

  lemma {:induction false} PowAdds(m: nat, n: nat)
    ensures Pow2(m + n) == Pow2(m) * Pow2(n)
  {
    if m > 0 {
      PowAdds(m - 1, n);
      assert Pow2(m + n) == 2 * (Pow2(m - 1) * Pow2(n));
    }
  }

  lemma DoublePow(n: nat)
    ensures Pow2(n + 1) == 2 * Pow2(n)
  {
  }

  lemma Powers()
    ensures Pow2(0) == 1 && Pow2(8) == 0x100 && Pow2(16) == 0x1_0000 && Pow2(24) == 0x100_0000
        && Pow2(32) == 0x1_0000_0000
  {
    assert Pow2(2) == 4 && Pow2(4) == 16 && Pow2(6) == 64;
    PowAdds(8, 8);
    PowAdds(16, 8);
    PowAdds(16, 16);
  }

  predicate Times(x: int, q: int, p: int) {
    x == q * p
  }

  ghost predicate Multiple(x: int, p: int) {
    exists q :: Times(x, q, p)
  }

  lemma MultipleOfLess(x: int, e: nat, d: nat)
    requires d <= e && Multiple(x, Pow2(e))
    ensures Multiple(x, Pow2(d))
  {
    hide Pow2, Times;
    var q :| Times(x, q, Pow2(e));
    PowAdds(e - d, d);
    TimesFactor(x, q, Pow2(e - d), Pow2(d));
  }

  lemma TimesFactor(x: int, q: int, c: int, p: int)
    requires Times(x, q, c * p)
    ensures Times(x, q * c, p)
  {
    Regroup(q, c, p);
  }

  lemma MultipleSum(x: int, y: int, p: int)
    requires Multiple(x, p) && Multiple(y, p)
    ensures Multiple(x + y, p) && Multiple(x - y, p)
  {
    var q :| Times(x, q, p);
    var r :| Times(y, r, p);
    assert Times(x + y, q + r, p) && Times(x - y, q - r, p);
  }

  lemma AtLeast(k: int, c: int)
    requires c > 0 && k >= 1
    ensures k * c >= c
  {
    assert (k - 1) * c >= 0;
  }

  lemma SmallMultiple(k: int, c: int)
    requires c > 0 && -c < k * c < c
    ensures k == 0
  {
    if k >= 1 {
      AtLeast(k, c);
    } else if k <= -1 {
      AtLeast(-k, c);
    }
  }

  lemma Quotient(x: int, q: int, c: int)
    requires c > 0 && Times(x, q, c)
    ensures x / c == q
  {
    var d, m := x / c, x % c;
    assert (q - d) * c == m;
    SmallMultiple(q - d, c);
  }

  lemma ClearBit(b: nat, q: int, p: nat)
    requires p > 0 && Times(b, q, 2 * p)
    ensures b / p % 2 == 0 && Multiple(b + p, p)
  {
    Regroup(q, 2, p);
    assert Times(b, q * 2, p);
    Quotient(b, q * 2, p);
    assert Times(b + p, q * 2 + 1, p);
  }

  /** Setting a bit that is clear adds its weight. */
  lemma SetClearBit(b: nat, k: nat)
    requires Multiple(b, Pow2(k + 1))
    ensures SetBit(b, k) == b + Pow2(k) && Multiple(b + Pow2(k), Pow2(k))
  {
    var q :| Times(b, q, Pow2(k + 1));
    var p := Pow2(k);
    DoublePow(k);
    ClearBit(b, q, p);
  }

  /** The bytes of a masked address: the bits the mask clears are clear. */
  lemma MaskedByte(ip: IPv4, bits: nat, k: nat)
    requires ip < 0x1_0000_0000 && bits <= 32 && k < 4 && Multiple(ip, Pow2(32 - bits))
    ensures Multiple(Bytes(ip)[k], Pow2(8 - BitsIn(bits, k)))
  {
    var byte, d := Bytes(ip)[k], 8 - BitsIn(bits, k);
    Powers();
    if d == 0 {
      assert Times(byte, byte, 1);
    } else {
      var shift := 24 - 8 * k;
      var e: nat := 32 - bits - shift;
      var v := ip / Unit(k);
      UnitIsPower(k);
      var q :| Times(ip, q, Pow2(32 - bits));
      PowAdds(e, shift);
      Regroup(q, Pow2(e), Pow2(shift));
      Quotient(ip, q * Pow2(e), Pow2(shift));
      assert Times(v, q, Pow2(e));
      MultipleOfLess(v, e, d);
      ByteOfShifted(ip, k);
      assert Times(v / 0x100 * 0x100, v / 0x100, Pow2(8));
      MultipleOfLess(v / 0x100 * 0x100, 8, d);
      MultipleSum(v, v / 0x100 * 0x100, Pow2(d));
    }
  }

  lemma Regroup(q: int, x: int, y: int)
    ensures q * (x * y) == (q * x) * y
  {
  }

  /** The weight of byte k. */
  function Unit(k: nat): (u: nat)
    requires k < 4
    ensures u > 0
  {
    if k == 0 then 0x100_0000 else if k == 1 then 0x1_0000 else if k == 2 then 0x100 else 1
  }

  lemma UnitIsPower(k: nat)
    requires k < 4
    ensures Unit(k) == Pow2(24 - 8 * k)
  {
    Powers();
  }

  lemma ByteOfShifted(ip: IPv4, k: nat)
    requires ip < 0x1_0000_0000 && k < 4
    ensures var v := ip / Unit(k); Bytes(ip)[k] == v - v / 0x100 * 0x100
  {
    var x, y, z := ip / 0x100, ip / 0x1_0000, ip / 0x100_0000;
    if k == 0 {
      assert z / 0x100 == 0;
    } else if k == 1 {
      LowPart(y);
    } else if k == 2 {
      LowPart(x);
    } else {
      LowPart(ip);
    }
  }

  lemma LowPart(v: nat)
    ensures v % 0x100 == v - v / 0x100 * 0x100
  {
  }

  /** The bytes once bits `bits` to i of the masked address have been set. */
  ghost predicate SetUpTo(a: seq<nat>, m: seq<nat>, bits: nat, i: nat) {
    |a| == 4 && |m| == 4
    && forall k | 0 <= k < 4 :: a[k] == m[k] + Pow2(8 - BitsIn(bits, k)) - Pow2(8 - BitsIn(i, k))
  }

  lemma MultipleOfSelf(p: int)
    ensures Multiple(p, p)
  {
    assert Times(p, 1, p);
  }

  lemma SetNextBit(a: seq<nat>, m: seq<nat>, bits: nat, i: nat)
    requires bits <= i < 32 && SetUpTo(a, m, bits, i)
    requires forall k | 0 <= k < 4 :: Multiple(m[k], Pow2(8 - BitsIn(bits, k)))
    ensures SetUpTo(a[i / 8 := SetBit(a[i / 8], 7 - i % 8)], m, bits, i + 1)
  {
    hide Pow2, Multiple, SetBit;
    var k := i / 8;
    var d, e := 8 - BitsIn(i, k), 8 - BitsIn(bits, k);
    assert d == 8 - i % 8 && d <= e;
    forall j | 0 <= j < 4 && j != k ensures BitsIn(i + 1, j) == BitsIn(i, j) {
    }
    assert BitsIn(i + 1, k) == BitsIn(i, k) + 1;
    MultipleOfSelf(Pow2(e));
    MultipleOfSelf(Pow2(d));
    DoublePow(d - 1);
    MultipleOfLess(m[k], e, d);
    MultipleOfLess(Pow2(e), e, d);
    MultipleSum(m[k], Pow2(e), Pow2(d));
    MultipleSum(m[k] + Pow2(e), Pow2(d), Pow2(d));
    SetClearBit(a[k], d - 1);
  }

  lemma NothingSet(m: seq<nat>, bits: nat)
    requires |m| == 4
    ensures SetUpTo(m, m, bits, bits)
  {
  }

  lemma AllSet(a: seq<nat>, m: seq<nat>, bits: nat)
    requires bits <= 32 && SetUpTo(a, m, bits, 32)
    ensures AddressOf(a) == AddressOf(m) + Pow2(32 - bits) - 1
  {
    hide Pow2;
    Powers();
    var p := Pow2(32 - bits);
    if bits <= 8 {
      PowAdds(8 - bits, 24);
      assert a[0] == m[0] + p / 0x100_0000 - 1 && p % 0x100_0000 == 0;
      assert forall k | 1 <= k < 4 :: a[k] == m[k] + 255;
    } else if bits <= 16 {
      PowAdds(16 - bits, 16);
      assert a[0] == m[0] && a[1] == m[1] + p / 0x1_0000 - 1 && p % 0x1_0000 == 0;
      assert forall k | 2 <= k < 4 :: a[k] == m[k] + 255;
    } else if bits <= 24 {
      PowAdds(24 - bits, 8);
      assert a[0] == m[0] && a[1] == m[1] && a[2] == m[2] + p / 0x100 - 1 && p % 0x100 == 0;
      assert a[3] == m[3] + 255;
    } else {
      assert a[0] == m[0] && a[1] == m[1] && a[2] == m[2] && a[3] == m[3] + p - 1;
    }
  }

  /** lastAddr: set every host bit of the masked address. */
  method LastAddr(p: Prefix) returns (last: IPv4)
    requires p.Valid()
    ensures last == p.Broadcast()
  {
    hide Pow2, Multiple, SetUpTo, AddressOf;
    NetworkFits(p);
    var masked := Bytes(p.Network());
    var a := new nat[4](k requires 0 <= k < 4 => masked[k]);
    assert a[..] == masked;
    NothingSet(masked, p.bits);
    forall k | 0 <= k < 4 ensures Multiple(masked[k], Pow2(8 - BitsIn(p.bits, k))) {
      MaskedByte(p.Network(), p.bits, k);
    }
    for i := p.bits to 32
      invariant |a[..]| == 4
      invariant SetUpTo(a[..], masked, p.bits, i)
    {
      SetNextBit(a[..], masked, p.bits, i);
      a[i / 8] := SetBit(a[i / 8], 7 - i % 8);
    }
    AllSet(a[..], masked, p.bits);
    last := AddressOf(a[..]);
  }

  lemma NetworkFits(p: Prefix)
    requires p.Valid()
    ensures p.Network() < 0x1_0000_0000 && Multiple(p.Network(), Pow2(32 - p.bits))
  {
    Powers();
    var q: nat :| p.Network() == q * p.Size();
    assert Times(p.Network(), q, Pow2(32 - p.bits));
  }

  /** prefix.Contains(ip): the masked bits agree. */
  predicate Contains(p: Prefix, ip: IPv4)
    requires p.bits <= 32
  {
    Mask(ip, p.Size()) == p.Network()
  }

  lemma ContainsRange(p: Prefix, ip: IPv4)
    requires p.bits <= 32
    ensures Contains(p, ip) <==> p.Network() <= ip <= p.Broadcast()
  {
    var s := p.Size();
    var q: nat :| p.Network() == q * s;
    var r: nat :| Mask(ip, s) == r * s;
    if p.Network() <= ip <= p.Broadcast() {
      assert (r - q) * s == Mask(ip, s) - p.Network();
      SmallMultiple(r - q, s);
    }
  }
}
