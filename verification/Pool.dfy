/**
 Specification of the host pool: a bounded sequence of addresses without duplicate (ip, port), the
 sampling arithmetic of the list store, and the text form in which the pool is saved.
 */
module Pool {
  import opened Codes

  datatype Address = Address(ip: nat, port: nat, services: nat, timestamp: nat)

  datatype Authority = Authority(ip: nat, port: nat)

  /** Address validity, and authority text, belong to the message and configuration libraries. */
  datatype Library = Library(
    isValid: Address -> bool,
    format: Authority -> string,
    parse: string -> Option<Authority>)

  const MAX_SIZE: nat := 0xFFFF_FFFF_FFFF_FFFF

  function CeilingAdd(a: nat, b: nat): nat {
    if a + b > MAX_SIZE then MAX_SIZE else a + b
  }

  function Key(a: Address): Authority {
    Authority(a.ip, a.port)
  }

  predicate Has(pool: seq<Address>, a: Address) {
    exists i :: 0 <= i < |pool| && Key(pool[i]) == Key(a)
  }

  ghost predicate KeysDistinct(pool: seq<Address>) {
    forall i, j :: 0 <= i < j < |pool| ==> Key(pool[i]) != Key(pool[j])
  }

  /** The newest n elements. */
  function Last<T>(s: seq<T>, n: nat): (r: seq<T>)
    ensures |r| == Min(|s|, n)
    ensures forall i :: 0 <= i < |r| ==> r[i] == s[|s| - |r| + i]
  {
    if |s| <= n then s else s[|s| - n..]
  }

  /** circular_buffer::push_back: the oldest element makes room when the buffer is full. */
  function PushBack(pool: seq<Address>, capacity: nat, a: Address): seq<Address>
    requires capacity > 0
  {
    if |pool| < capacity then pool + [a] else pool[1..] + [a]
  }

  lemma PushIsLast(all: seq<Address>, capacity: nat, a: Address)
    requires capacity > 0
    ensures PushBack(Last(all, capacity), capacity, a) == Last(all + [a], capacity)
  {
  }

  // ---------------------------------------------------------------------------------------------
  // Sampling
  // ---------------------------------------------------------------------------------------------

  /** Distance between sampled positions, given how many addresses are wanted at least. */
  function Stride(usable: nat, accept: nat): (step: nat)
    requires accept > 0
    ensures step >= 1
  {
    Max(usable / accept, 1)
  }

  /** Number of positions 0, step, 2 * step, ... below usable. */
  function Visits(usable: nat, step: nat): nat
    requires step > 0
  {
    (usable + step - 1) / step
  }

  lemma DivideAtLeast(a: nat, b: nat, q: nat)
    requires b > 0
    ensures q <= a / b <==> q * b <= a
  {
    var d, r := a / b, a % b;
    assert a == d * b + r;
    if q <= d {
      assert q * b <= d * b by { Scale(q, d, b); }
    } else {
      assert (d + 1) * b <= q * b by { Scale(d + 1, q, b); }
      assert (d + 1) * b == d * b + b;
    }
  }

  lemma Scale(x: nat, y: nat, b: nat)
    requires x <= y
    ensures x * b <= y * b
  {
  }

  /** The k-th sampled position exists iff k is below the number of visits. */
  lemma VisitExists(usable: nat, step: nat, k: nat)
    requires step > 0
    ensures k < Visits(usable, step) <==> k * step < usable
  {
    DivideAtLeast(usable + step - 1, step, k + 1);
    assert (k + 1) * step == k * step + step;
  }

  lemma FewestVisits(usable: nat, accept: nat, step: nat)
    requires step > 0 && accept > 0 && accept * step <= usable
    ensures Visits(usable, step) >= accept
  {
    VisitExists(usable, step, accept - 1);
    assert (accept - 1) * step == accept * step - step;
  }

  lemma MostVisits(usable: nat, accept: nat, step: nat, rest: nat)
    requires step > 0 && usable == accept * step + rest
    ensures Visits(usable, step) <= accept + rest
  {
    VisitExists(usable, step, accept + rest);
    assert (accept + rest) * step == accept * step + rest * step;
    Scale(1, step, rest);
  }

  /**
   Step-sampling bound: the positions visited are at least the wanted number when that many are
   usable, all of them when fewer are, and fewer than twice the wanted number.
   */
  lemma SamplingBound(usable: nat, accept: nat)
    requires usable > 0 && accept > 0
    ensures Min(usable, accept) <= Visits(usable, Stride(usable, accept)) <= Min(usable, 2 * accept - 1)
  {
    var step := Stride(usable, accept);
    MostVisits(usable, 0, step, usable);
    if usable < accept {
      assert usable / accept == 0 by { DivideAtLeast(usable, accept, 1); }
    } else {
      DivideAtLeast(usable, accept, 1);
      assert accept * step <= usable by { DivideAtLeast(usable, accept, step); }
      FewestVisits(usable, accept, step);
      var rest := usable - accept * step;
      assert rest < accept by {
        DivideAtLeast(usable, accept, step + 1);
        assert (step + 1) * accept == step * accept + accept;
      }
      MostVisits(usable, accept, step, rest);
    }
  }

  /** The addresses the list store looks at. */
  function Sampled(hosts: seq<Address>, usable: nat, step: nat): (r: seq<Address>)
    requires step > 0 && usable <= |hosts|
    ensures |r| == Visits(usable, step)
    ensures forall k :: 0 <= k < |r| ==> 0 <= k * step < usable && r[k] == hosts[k * step]
  {
    assert forall k: nat :: k < Visits(usable, step) ==> 0 <= k * step < usable by {
      forall k: nat | k < Visits(usable, step) ensures 0 <= k * step < usable { VisitExists(usable, step, k); }
    }
    seq(Visits(usable, step), k requires 0 <= k < Visits(usable, step) => hosts[k * step])
  }

  // ---------------------------------------------------------------------------------------------
  // Acceptance
  // ---------------------------------------------------------------------------------------------

  /** Of the addresses looked at, those the store accepts into a pool, in order. */
  function Accepted(lib: Library, pool: seq<Address>, capacity: nat, looked: seq<Address>): seq<Address> {
    if looked == [] then []
    else
      var n := |looked| - 1;
      var before := Accepted(lib, pool, capacity, looked[..n]);
      if lib.isValid(looked[n]) && !Has(Last(pool + before, capacity), looked[n])
      then before + [looked[n]] else before
  }

  /** Accepted addresses are valid ones looked at. */
  lemma {:induction false} AcceptedSound(lib: Library, pool: seq<Address>, capacity: nat, looked: seq<Address>)
    ensures |Accepted(lib, pool, capacity, looked)| <= |looked|
    ensures forall a :: a in Accepted(lib, pool, capacity, looked) ==> a in looked && lib.isValid(a)
  {
    if looked != [] {
      AcceptedSound(lib, pool, capacity, looked[..|looked| - 1]);
    }
  }

  lemma HasMore(all: seq<Address>, more: seq<Address>, a: Address)
    requires Has(all, a)
    ensures Has(all + more, a)
  {
    var i :| 0 <= i < |all| && Key(all[i]) == Key(a);
    assert Key((all + more)[i]) == Key(a);
  }

  lemma HasNew(all: seq<Address>, a: Address)
    ensures Has(all + [a], a)
  {
    assert Key((all + [a])[|all|]) == Key(a);
  }

  lemma HasLast(all: seq<Address>, n: nat, a: Address)
    requires Has(Last(all, n), a)
    ensures Has(all, a)
  {
    var kept := Last(all, n);
    var i :| 0 <= i < |kept| && Key(kept[i]) == Key(a);
    assert Key(all[|all| - |kept| + i]) == Key(a);
  }

  /** A valid address looked at is accepted, or its (ip, port) was already known. */
  lemma {:induction false} AcceptedComplete(lib: Library, pool: seq<Address>, capacity: nat,
                                            looked: seq<Address>, k: nat)
    requires k < |looked| && lib.isValid(looked[k])
    ensures Has(pool + Accepted(lib, pool, capacity, looked), looked[k])
  {
    hide Has, Last;
    var n := |looked| - 1;
    var before := Accepted(lib, pool, capacity, looked[..n]);
    var x := looked[n];
    var all := pool + before;
    if k < n {
      AcceptedComplete(lib, pool, capacity, looked[..n], k);
      HasMore(all, [x], looked[k]);
    } else if Has(Last(all, capacity), x) {
      HasLast(all, capacity, x);
    } else {
      HasNew(all, x);
    }
    assert pool + (before + [x]) == all + [x];
  }

  /** The newest entries of what is kept: as many as fit are kept whole. */
  lemma LastKeeps(pool: seq<Address>, acc: seq<Address>, capacity: nat)
    requires |acc| <= capacity
    ensures var kept := Last(pool + acc, capacity);
            && |acc| <= |kept| <= |pool| + |acc|
            && kept[|kept| - |acc|..] == acc
            && kept[..|kept| - |acc|] == pool[|pool| + |acc| - |kept|..]
  {
  }

  lemma FreshInSuffix(kept: seq<Address>, before: seq<Address>, x: Address)
    requires |before| <= |kept| && kept[|kept| - |before|..] == before && !Has(kept, x) && KeysDistinct(before)
    ensures KeysDistinct(before + [x])
  {
    forall i | 0 <= i < |before|
      ensures Key(before[i]) != Key(x)
    {
      assert before[i] == kept[|kept| - |before|..][i] == kept[|kept| - |before| + i];
    }
  }

  /** While no more than `capacity` addresses are looked at, all accepted ones differ. */
  lemma {:induction false} AcceptedDistinct(lib: Library, pool: seq<Address>, capacity: nat, looked: seq<Address>)
    requires |looked| <= capacity
    ensures KeysDistinct(Accepted(lib, pool, capacity, looked))
  {
    if looked != [] {
      var n := |looked| - 1;
      var before := Accepted(lib, pool, capacity, looked[..n]);
      AcceptedDistinct(lib, pool, capacity, looked[..n]);
      AcceptedSound(lib, pool, capacity, looked[..n]);
      LastKeeps(pool, before, capacity);
      hide KeysDistinct, Has, Last;
      if Accepted(lib, pool, capacity, looked) != before {
        FreshInSuffix(Last(pool + before, capacity), before, looked[n]);
      }
    }
  }

  /** Acceptance keeps the pool free of duplicates. */
  lemma {:induction false} PoolDistinct(lib: Library, pool: seq<Address>, capacity: nat, looked: seq<Address>)
    requires KeysDistinct(pool)
    ensures KeysDistinct(Last(pool + Accepted(lib, pool, capacity, looked), capacity))
  {
    if looked == [] {
      assert pool + [] == pool;
    } else {
      var n := |looked| - 1;
      PoolDistinct(lib, pool, capacity, looked[..n]);
      var all := pool + Accepted(lib, pool, capacity, looked[..n]);
      var x := looked[n];
      if capacity > 0 && Accepted(lib, pool, capacity, looked) != Accepted(lib, pool, capacity, looked[..n]) {
        PushIsLast(all, capacity, x);
        assert pool + Accepted(lib, pool, capacity, looked) == all + [x];
        PushDistinct(Last(all, capacity), capacity, x);
      }
    }
  }

  lemma PushDistinct(pool: seq<Address>, capacity: nat, a: Address)
    requires capacity > 0 && KeysDistinct(pool) && !Has(pool, a)
    ensures KeysDistinct(PushBack(pool, capacity, a))
  {
    assert forall i :: 0 <= i < |pool| ==> Key(pool[i]) != Key(a);
  }

  /** The pool after the list store has looked at `looked`. */
  function Stored(lib: Library, pool: seq<Address>, capacity: nat, looked: seq<Address>): seq<Address> {
    Last(pool + Accepted(lib, pool, capacity, looked), capacity)
  }

  lemma StoredDistinct(lib: Library, pool: seq<Address>, capacity: nat, looked: seq<Address>)
    requires KeysDistinct(pool)
    ensures KeysDistinct(Stored(lib, pool, capacity, looked))
  {
    PoolDistinct(lib, pool, capacity, looked);
  }

  /** Looking at one more address: push it if it is valid and not in the pool. */
  lemma StoredStep(lib: Library, pool: seq<Address>, capacity: nat, looked: seq<Address>, k: nat)
    requires capacity > 0 && k < |looked|
    ensures var p, a := Stored(lib, pool, capacity, looked[..k]), looked[k];
            Stored(lib, pool, capacity, looked[..k + 1]) ==
            if lib.isValid(a) && !Has(p, a) then PushBack(p, capacity, a) else p
  {
    var a := looked[k];
    assert looked[..k + 1][..k] == looked[..k] && looked[..k + 1][k] == a;
    var before := Accepted(lib, pool, capacity, looked[..k]);
    PushIsLast(pool + before, capacity, a);
    assert pool + (before + [a]) == pool + before + [a];
  }

  /**
   What a list store does to a pool: the accepted addresses are pairwise distinct, all of them are in
   the new pool as its newest entries, after the newest of the old ones; and the size grows by their
   number up to capacity. A pool without duplicates stays so.
   */
  ghost predicate Renews(pool: seq<Address>, capacity: nat, accepted: seq<Address>, renewed: seq<Address>) {
    && KeysDistinct(accepted)
    && |renewed| == Min(capacity, |pool| + |accepted|)
    && |accepted| <= |renewed| && renewed[|renewed| - |accepted|..] == accepted
    && renewed[..|renewed| - |accepted|] == pool[|pool| + |accepted| - |renewed|..]
    && (KeysDistinct(pool) ==> KeysDistinct(renewed))
  }

  lemma StoredMeetsSpec(lib: Library, pool: seq<Address>, capacity: nat, looked: seq<Address>)
    requires |pool| <= capacity && |looked| <= capacity
    ensures Renews(pool, capacity, Accepted(lib, pool, capacity, looked), Stored(lib, pool, capacity, looked))
  {
    hide KeysDistinct, Accepted;
    assert |Accepted(lib, pool, capacity, looked)| <= capacity by { AcceptedSound(lib, pool, capacity, looked); }
    AcceptedDistinct(lib, pool, capacity, looked);
    LastKeeps(pool, Accepted(lib, pool, capacity, looked), capacity);
    if KeysDistinct(pool) { PoolDistinct(lib, pool, capacity, looked); }
  }

  // ---------------------------------------------------------------------------------------------
  // Saving and loading
  // ---------------------------------------------------------------------------------------------

  function Saved(lib: Library, pool: seq<Address>): (lines: seq<string>)
    ensures |lines| == |pool|
    ensures forall i :: 0 <= i < |pool| ==> lines[i] == lib.format(Key(pool[i]))
  {
    seq(|pool|, i requires 0 <= i < |pool| => lib.format(Key(pool[i])))
  }

  /** A line that is not an authority ends the load with an exception. */
  predicate WellFormed(lib: Library, lines: seq<string>) {
    forall i :: 0 <= i < |lines| ==> lib.parse(lines[i]).Some?
  }

  /** The pool after reading the lines; zero ports are discarded. */
  function Loaded(lib: Library, pool: seq<Address>, capacity: nat, lines: seq<string>): seq<Address>
    requires capacity > 0
  {
    if lines == [] then pool
    else
      var n := |lines| - 1;
      LoadedOne(Loaded(lib, pool, capacity, lines[..n]), capacity, lib.parse(lines[n]))
  }

  function LoadedOne(pool: seq<Address>, capacity: nat, host: Option<Authority>): seq<Address>
    requires capacity > 0
  {
    if host.Some? && host.value.port != 0
    then PushBack(pool, capacity, Address(host.value.ip, host.value.port, 0, 0)) else pool
  }

  /** Reading one more line. */
  lemma LoadedStep(lib: Library, pool: seq<Address>, capacity: nat, lines: seq<string>, k: nat)
    requires capacity > 0 && k < |lines|
    ensures Loaded(lib, pool, capacity, lines[..k + 1]) ==
            LoadedOne(Loaded(lib, pool, capacity, lines[..k]), capacity, lib.parse(lines[k]))
  {
    var more := lines[..k + 1];
    assert more[..k] == lines[..k] && more[k] == lines[k];
  }

  function Keys(pool: seq<Address>): seq<Authority> {
    seq(|pool|, i requires 0 <= i < |pool| => Key(pool[i]))
  }

  /** The (ip, port) sequence without zero ports. */
  function PortedKeys(pool: seq<Address>): seq<Authority> {
    if pool == [] then []
    else
      var n := |pool| - 1;
      PortedKeys(pool[..n]) + if pool[n].port != 0 then [Key(pool[n])] else []
  }

  ghost predicate RoundTrips(lib: Library) {
    forall a :: lib.parse(lib.format(a)) == Some(a)
  }

  /** Saving a pool and loading the file restores its non-zero-port authorities, in order. */
  lemma {:induction false} SaveLoad(lib: Library, pool: seq<Address>, capacity: nat)
    requires RoundTrips(lib) && capacity > 0 && |pool| <= capacity
    ensures WellFormed(lib, Saved(lib, pool))
    ensures Keys(Loaded(lib, [], capacity, Saved(lib, pool))) == PortedKeys(pool)
    ensures |PortedKeys(pool)| <= |pool|
  {
    if pool != [] {
      var n := |pool| - 1;
      SaveLoad(lib, pool[..n], capacity);
      assert Saved(lib, pool)[..n] == Saved(lib, pool[..n]);
    }
  }

  /** Number of leading lines that are authorities. */
  function Readable(lib: Library, lines: seq<string>): (n: nat)
    ensures n <= |lines| && WellFormed(lib, lines[..n])
    ensures n < |lines| ==> lib.parse(lines[n]).None?
  {
    if lines == [] then 0
    else
      var n := |lines| - 1;
      var before := Readable(lib, lines[..n]);
      assert lines[..n][..before] == lines[..before];
      if before == n && lib.parse(lines[n]).Some? then n + 1 else before
  }

  /** Authorities of the file's non-zero-port lines. */
  function FileKeys(lib: Library, lines: seq<string>): seq<Authority> {
    if lines == [] then []
    else
      var n := |lines| - 1;
      var host := lib.parse(lines[n]);
      FileKeys(lib, lines[..n]) + if host.Some? && host.value.port != 0 then [host.value] else []
  }

  /** Loading appends the file's authorities and keeps the newest, duplicates included. */
  lemma {:induction false} LoadedKeys(lib: Library, pool: seq<Address>, capacity: nat, lines: seq<string>)
    requires capacity > 0 && |pool| <= capacity
    ensures Keys(Loaded(lib, pool, capacity, lines)) == Last(Keys(pool) + FileKeys(lib, lines), capacity)
  {
    assert |pool| <= capacity ==> Last(Keys(pool), capacity) == Keys(pool);
    hide PushBack, Last, Keys;
    if lines == [] {
      assert Keys(pool) + [] == Keys(pool);
    } else {
      var n := |lines| - 1;
      LoadedKeys(lib, pool, capacity, lines[..n]);
      var before := Loaded(lib, pool, capacity, lines[..n]);
      var parsed := lib.parse(lines[n]);
      var all := Keys(pool) + FileKeys(lib, lines[..n]);
      if parsed.Some? && parsed.value.port != 0 {
        var host := parsed.value;
        var a := Address(host.ip, host.port, 0, 0);
        KeysPush(before, capacity, a, all);
        calc {
          Keys(Loaded(lib, pool, capacity, lines));
          Keys(PushBack(before, capacity, a));
          Last(all + [host], capacity);
          { assert Keys(pool) + FileKeys(lib, lines) == all + [host]; }
          Last(Keys(pool) + FileKeys(lib, lines), capacity);
        }
      } else {
        assert FileKeys(lib, lines) == FileKeys(lib, lines[..n]);
      }
    }
  }

  lemma KeysPush(pool: seq<Address>, capacity: nat, a: Address, all: seq<Authority>)
    requires capacity > 0 && Keys(pool) == Last(all, capacity)
    ensures Keys(PushBack(pool, capacity, a)) == Last(all + [Key(a)], capacity)
  {
    var key := Key(a);
    assert |pool| == |Keys(pool)|;
    if |pool| < capacity {
      assert all == Keys(pool) && Keys(pool + [a]) == Keys(pool) + [key];
    } else {
      assert Keys(pool[1..] + [a]) == Keys(pool)[1..] + [key];
      var n := |all| - capacity;
      assert all[n..][1..] == all[n + 1..] && all[n + 1..] + [key] == (all + [key])[n + 1..];
    }
  }

  /** The load discards no duplicates: a file that repeats a line loads a pool that repeats it. */
  lemma LoadKeepsDuplicates(lib: Library, capacity: nat, host: Authority)
    requires RoundTrips(lib) && capacity >= 2 && host.port != 0
    ensures !KeysDistinct(Loaded(lib, [], capacity, [lib.format(host), lib.format(host)]))
  {
    var lines := [lib.format(host), lib.format(host)];
    assert lines[..1] == [lib.format(host)] && lines[..1][..0] == [];
    var pool := Loaded(lib, [], capacity, lines);
    assert Loaded(lib, [], capacity, lines[..1]) == [Address(host.ip, host.port, 0, 0)];
    assert Key(pool[0]) == Key(pool[1]);
  }

  lemma DistinctByKeys(pool: seq<Address>)
    ensures KeysDistinct(pool) <==> forall i, j :: 0 <= i < j < |Keys(pool)| ==> Keys(pool)[i] != Keys(pool)[j]
  {
    assert |Keys(pool)| == |pool| && forall i :: 0 <= i < |pool| ==> Keys(pool)[i] == Key(pool[i]);
  }

  /** A pool is free of duplicates after loading iff the newest of its old keys and the file's are. */
  lemma LoadedDistinct(lib: Library, pool: seq<Address>, capacity: nat, lines: seq<string>)
    requires capacity > 0 && |pool| <= capacity
    ensures var kept := Last(Keys(pool) + FileKeys(lib, lines), capacity);
            KeysDistinct(Loaded(lib, pool, capacity, lines)) <==>
            forall i, j :: 0 <= i < j < |kept| ==> kept[i] != kept[j]
  {
    hide Last, Loaded, FileKeys, Keys, KeysDistinct;
    LoadedKeys(lib, pool, capacity, lines);
    DistinctByKeys(Loaded(lib, pool, capacity, lines));
  }

  /** The file keeps no services and no time: a loaded entry has neither. */
  lemma {:induction false} LoadedBare(lib: Library, capacity: nat, lines: seq<string>)
    requires capacity > 0
    ensures forall a :: a in Loaded(lib, [], capacity, lines) ==> a.services == 0 && a.timestamp == 0
  {
    if lines != [] { LoadedBare(lib, capacity, lines[..|lines| - 1]); }
  }
}
