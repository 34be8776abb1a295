/** The sliding-window limiters of the enroll and login paths: at most five
    attempts a minute from one address, kept in a slice compacted in place. */
module RateLimit {
  import opened Wire

  /** One minute, in nanoseconds. */
  const MINUTE := 60_000_000_000
  const LIMIT := 5

  function Kept(s: seq<int>, now: int): (kept: seq<int>)
    ensures |kept| <= |s|
  {
    if s == [] then []
    else
      var init, last := Kept(s[..|s| - 1], now), s[|s| - 1];
      if now - last < MINUTE then init + [last] else init
  }

  /** The stored attempts afterwards, and whether this one is allowed. */
  function Decide(s: seq<int>, now: int): (seq<int>, bool) {
    var kept := Kept(s, now);
    if |kept| >= LIMIT then (kept, false) else (kept + [now], true)
  }

  /** A Go slice: the first `len` elements of a backing array. */
  class Slice {
    var data: array<int>
    var len: nat

    ghost predicate Valid()
      reads this
    {
      len <= data.Length
    }

    function Contents(): seq<int>
      requires Valid()
      reads this, data
    {
      data[..len]
    }

    constructor ()
      ensures Valid() && fresh(data) && Contents() == []
    {
      data := new int[0];
      len := 0;
    }

    /** kept := s[:0]; the elements still within the minute are moved to the front. */
    method Compact(now: int)
      requires Valid()
      modifies this`len, data
      ensures Valid() && Contents() == Kept(old(Contents()), now)
    {
      var n := 0;
      for i := 0 to len
        invariant 0 <= n <= i <= len == old(len)
        invariant data[..n] == Kept(old(data[..len])[..i], now)
        invariant data[i..] == old(data[i..])
      {
        var t := data[i];
        assert t == old(data[..len])[i] && old(data[..len])[..i + 1][..i] == old(data[..len])[..i];
        if now - t < MINUTE {
          data[n] := t;
          n := n + 1;
        }
      }
      assert old(data[..len])[..len] == old(data[..len]);
      len := n;
    }

    method Append(t: int)
      requires Valid()
      modifies this, data
      ensures Valid() && Contents() == old(Contents()) + [t]
      ensures data == old(data) || fresh(data)
    {
      if len == data.Length {
        var grown := new int[2 * len + 1];
        forall i | 0 <= i < len {
          grown[i] := data[i];
        }
        assert grown[..len] == data[..len];
        data := grown;
      }
      data[len] := t;
      len := len + 1;
    }

    /** One attempt: compact, and append it if there is room under the limit. */
    method Try(now: int) returns (ok: bool)
      requires Valid()
      modifies this, data
      ensures Valid() && (Contents(), ok) == Decide(old(Contents()), now)
      ensures data == old(data) || fresh(data)
    {
      hide Kept;
      Compact(now);
      if len >= LIMIT {
        return false;
      }
      Append(now);
      ok := true;
    }
  }

  class Limiter {
    var tries: map<IPv4, Slice>

    ghost predicate Valid()
      reads this, tries.Values
    {
      && (forall ip <- tries :: tries[ip].Valid())
      && forall i, j | i in tries && j in tries && i != j :: tries[i] != tries[j] && tries[i].data != tries[j].data
    }

    ghost function Footprint(): set<object>
      reads this, tries.Values
    {
      (set ip | ip in tries :: tries[ip]) + (set ip | ip in tries :: tries[ip].data)
    }

    ghost function Contents(ip: IPv4): seq<int>
      requires Valid()
      reads this, tries.Values, Footprint()
    {
      if ip in tries then tries[ip].Contents() else []
    }

    constructor ()
      ensures Valid() && tries == map[]
    {
      tries := map[];
    }

    /** enrollAllowed and loginAllowed */
    method Allowed(ip: IPv4, now: int) returns (ok: bool)
      requires Valid()
      modifies this, Footprint()
      ensures Valid()
      ensures (Contents(ip), ok) == Decide(old(Contents(ip)), now)
      ensures forall other | other != ip :: Contents(other) == old(Contents(other))
    {
      hide Decide;
      if ip !in tries {
        var s := new Slice();
        tries := tries[ip := s];
      }
      ok := tries[ip].Try(now);
    }
  }

  // ---- against the full history ----

  /** A limiter that forgets nothing: the allowed attempts, each allowed because fewer than LIMIT
      earlier allowed ones are less than a minute old. */
  function AllowedTimes(times: seq<int>): seq<int> {
    if times == [] then []
    else
      var earlier, now := AllowedTimes(times[..|times| - 1]), times[|times| - 1];
      if |Kept(earlier, now)| < LIMIT then earlier + [now] else earlier
  }

  /** What the compacting limiter stores after the attempts. */
  function Stored(times: seq<int>): seq<int> {
    if times == [] then [] else Decide(Stored(times[..|times| - 1]), times[|times| - 1]).0
  }

  ghost predicate Monotone(s: seq<int>) {
    forall i, j | 0 <= i < j < |s| :: s[i] <= s[j]
  }

  lemma {:induction false} KeptTwice(s: seq<int>, early: int, late: int)
    requires early <= late
    ensures Kept(Kept(s, early), late) == Kept(s, late)
  {
    if s != [] {
      var init, last := s[..|s| - 1], s[|s| - 1];
      KeptTwice(init, early, late);
      if early - last < MINUTE {
        assert (Kept(init, early) + [last])[..|Kept(init, early)|] == Kept(init, early);
      }
    }
  }

  lemma KeptAppend(s: seq<int>, t: int, now: int)
    ensures Kept(s + [t], now) == Kept(s, now) + (if now - t < MINUTE then [t] else [])
  {
    assert (s + [t])[..|s|] == s;
  }

  lemma {:induction false} StoredIsRecent(times: seq<int>, now: int)
    requires Monotone(times + [now])
    ensures Kept(Stored(times), now) == Kept(AllowedTimes(times), now)
    ensures |Stored(times)| <= LIMIT
  {
    hide Kept;
    if times == [] {
    } else {
      var init, last := times[..|times| - 1], times[|times| - 1];
      InitIsOrdered(times, now);
      StoredIsRecent(init, last);
      var kept, allowed := Kept(Stored(init), last), AllowedTimes(init);
      KeptTwice(allowed, last, now);
      assert Kept(kept, now) == Kept(allowed, now);
      KeptAppend(kept, last, now);
      KeptAppend(allowed, last, now);
    }
  }

  lemma InitIsOrdered(times: seq<int>, now: int)
    requires times != [] && Monotone(times + [now])
    ensures times[..|times| - 1] + [times[|times| - 1]] == times && Monotone(times) && times[|times| - 1] <= now
  {
    var all := times + [now];
    assert forall i | 0 <= i < |times| :: all[i] == times[i];
    assert all[|times| - 1] <= all[|times|];
  }

  /** Under a clock that does not fall, the limiter allows an attempt exactly when fewer than five
      allowed attempts are less than a minute old; and it never stores more than five. */
  lemma LimiterRefinesHistory(times: seq<int>, now: int)
    requires Monotone(times + [now])
    ensures Decide(Stored(times), now).1 <==> |Kept(AllowedTimes(times), now)| < LIMIT
    ensures |Stored(times + [now])| <= LIMIT
  {
    hide Kept;
    StoredIsRecent(times, now);
    assert (times + [now])[..|times|] == times && (times + [now])[|times|] == now;
  }

  lemma {:induction false} AllowedAreOrdered(times: seq<int>)
    requires Monotone(times)
    ensures Monotone(AllowedTimes(times))
    ensures times != [] ==> forall i | 0 <= i < |AllowedTimes(times)| :: AllowedTimes(times)[i] <= times[|times| - 1]
  {
    hide Kept;
    if times != [] {
      var init, now := times[..|times| - 1], times[|times| - 1];
      AllowedAreOrdered(init);
      assert init != [] ==> init[|init| - 1] <= now;
    }
  }

  /** A recent tail of an ordered list is kept whole. */
  lemma {:induction false} TailKept(s: seq<int>, k: nat, now: int)
    requires k <= |s| && Monotone(s) && (k < |s| ==> now - s[k] < MINUTE)
    ensures |Kept(s, now)| >= |s| - k
  {
    if k < |s| {
      assert s[k] <= s[|s| - 1];
      TailKept(s[..|s| - 1], k, now);
    }
  }

  /** No six allowed attempts ever lie within less than a minute. */
  lemma {:induction false} NoSixWithinAMinute(times: seq<int>, i: nat)
    requires Monotone(times) && i + 5 < |AllowedTimes(times)|
    ensures AllowedTimes(times)[i + 5] - AllowedTimes(times)[i] >= 60_000_000_000
  {
    var init, now := times[..|times| - 1], times[|times| - 1];
    var earlier := AllowedTimes(init);
    if i + LIMIT < |earlier| {
      NoSixWithinAMinute(init, i);
    } else {
      AllowedAreOrdered(init);
      if now - earlier[i] < MINUTE {
        TailKept(earlier, i, now);
      }
    }
  }

  /** An old attempt, and every one before it, is dropped. */
  lemma {:induction false} HeadDropped(s: seq<int>, k: nat, now: int)
    requires k < |s| && Monotone(s) && now - s[k] >= MINUTE
    ensures |Kept(s, now)| <= |s| - k - 1
  {
    if k < |s| - 1 {
      HeadDropped(s[..|s| - 1], k, now);
    } else {
      AllDropped(s, now);
    }
  }

  lemma {:induction false} AllDropped(s: seq<int>, now: int)
    requires s != [] && Monotone(s) && now - s[|s| - 1] >= MINUTE
    ensures Kept(s, now) == []
  {
    if |s| > 1 {
      assert s[|s| - 2] <= s[|s| - 1];
      AllDropped(s[..|s| - 1], now);
    }
  }

  /** The rule on the attempts themselves: one is allowed exactly when fewer than five were allowed before, or
      the fifth last of them is at least a minute old. */
  lemma AllowedIff(times: seq<int>, now: int)
    requires Monotone(times + [now])
    ensures var allowed := AllowedTimes(times);
            && (Decide(Stored(times), now).1 <==>
                  |allowed| < 5 || now - allowed[|allowed| - 5] >= 60_000_000_000)
            && AllowedTimes(times + [now]) == if Decide(Stored(times), now).1 then allowed + [now] else allowed
  {
    hide Kept, Decide, Monotone, AllowedTimes;
    LimiterRefinesHistory(times, now);
    OrderedBefore(times, now);
    AllowedAreOrdered(times);
    FewAreRecent(AllowedTimes(times), now);
    AllowedNext(times, now);
  }

  lemma OrderedBefore(times: seq<int>, now: int)
    requires Monotone(times + [now])
    ensures Monotone(times)
  {
    assert forall i | 0 <= i < |times| :: (times + [now])[i] == times[i];
  }

  lemma AllowedNext(times: seq<int>, now: int)
    ensures AllowedTimes(times + [now]) ==
            if |Kept(AllowedTimes(times), now)| < LIMIT then AllowedTimes(times) + [now] else AllowedTimes(times)
  {
    assert (times + [now])[..|times|] == times;
  }

  lemma FewAreRecent(s: seq<int>, now: int)
    requires Monotone(s)
    ensures |Kept(s, now)| < LIMIT <==> |s| < 5 || now - s[|s| - 5] >= 60_000_000_000
  {
    hide Monotone;
    if |s| >= 5 {
      if now - s[|s| - 5] >= MINUTE {
        HeadDropped(s, |s| - 5, now);
      } else {
        TailKept(s, |s| - 5, now);
      }
    }
  }
}
