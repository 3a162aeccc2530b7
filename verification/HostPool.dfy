/**
 The hosts class: the pool as an object whose methods run under its lock. Random draws and the state
 of the opened file stream are parameters; the hosts file is a field, as lines of text.
 */
module HostPool {
  import opened Codes
  import opened Pool

  /** A stream after opening: usable, failed to open (not "bad"), or bad. */
  datatype Stream = Good | Failed | Bad

  /** What a malformed line does to start: the exception of the authority parser. */
  const MALFORMED: Code := Other(0)

  class Hosts {
    const lib: Library
    const poolCapacity: nat     // host_pool_capacity
    var buffer: seq<Address>
    var stopped: bool
    var file: seq<string>

    function Capacity(): nat {
      Max(poolCapacity, 1)
    }

    predicate Disabled() {
      poolCapacity == 0
    }

    /** Holds after construction and after every method: the pool never exceeds its capacity. */
    ghost predicate Valid()
      reads this
    {
      && |buffer| <= Capacity() <= MAX_SIZE
      && (Disabled() ==> buffer == [])
    }

    constructor (lib: Library, poolCapacity: nat, file: seq<string>)
      requires poolCapacity <= 0xFFFF_FFFF
      ensures Valid() && stopped && buffer == []
      ensures this.lib == lib && this.poolCapacity == poolCapacity && this.file == file
      ensures Capacity() == (if poolCapacity == 0 then 1 else poolCapacity) && (Disabled() <==> poolCapacity == 0)
    {
      this.lib, this.poolCapacity, this.file := lib, poolCapacity, file;
      buffer, stopped := [], true;
    }

    /** The first entry with the same ip and port, or the end. */
    method Find(host: Address) returns (index: nat)
      requires Valid()
      ensures index <= |buffer|
      ensures index < |buffer| ==> Key(buffer[index]) == Key(host)
      ensures forall i :: 0 <= i < index ==> Key(buffer[i]) != Key(host)
      ensures index == |buffer| <==> !Has(buffer, host)
    {
      index := 0;
      while index < |buffer| && !(buffer[index].port == host.port && buffer[index].ip == host.ip)
        invariant 0 <= index <= |buffer|
        invariant forall i :: 0 <= i < index ==> Key(buffer[i]) != Key(host)
      {
        index := index + 1;
      }
    }

    /** A random entry of a running, non-empty pool. */
    method Fetch(draw: nat) returns (ec: Code, host: Option<Address>)
      requires Valid()
      requires buffer != [] ==> draw < |buffer|
      ensures ec == Success <==> poolCapacity > 0 && !stopped && buffer != []
      ensures ec == ServiceStopped <==> poolCapacity > 0 && stopped
      ensures ec == Success || ec == ServiceStopped || ec == NotFound
      ensures host == if ec == Success then Some(buffer[draw]) else None
    {
      if Disabled() { return NotFound, None; }
      if stopped { return ServiceStopped, None; }
      if buffer == [] { return NotFound, None; }
      return Success, Some(buffer[draw]);
    }

    /** One authority of the file; zero ports are discarded. */
    method LoadHost(host: Authority)
      requires Valid() && !Disabled()
      modifies this`buffer
      ensures Valid()
      ensures buffer == LoadedOne(old(buffer), Capacity(), Some(host))
    {
      if host.port != 0 { buffer := PushBack(buffer, Capacity(), Address(host.ip, host.port, 0, 0)); }
    }

    /** Loads the hosts file; lines after a malformed one are not reached. */
    method Start(stream: Stream) returns (ec: Code)
      requires Valid()
      modifies this`buffer, this`stopped
      ensures Valid()
      ensures Disabled() || !old(stopped) ==>
              && buffer == old(buffer) && stopped == old(stopped)
              && ec == if Disabled() then Success else OperationFailed
      ensures !Disabled() && old(stopped) ==>
              && !stopped
              && (!stream.Good? ==> buffer == old(buffer) && ec == if stream.Bad? then FileSystem else Success)
              && (stream.Good? ==>
                    && buffer == Loaded(lib, old(buffer), Capacity(), file[..Readable(lib, file)])
                    && ec == if Readable(lib, file) == |file| then Success else MALFORMED)
    {
      hide LoadedOne, WellFormed;
      if Disabled() { return Success; }
      if !stopped { return OperationFailed; }
      stopped := false;
      if stream.Bad? { return FileSystem; }
      if stream.Failed? { return Success; }
      var line := 0;
      while line < |file|
        invariant 0 <= line <= Readable(lib, file)
        invariant Valid() && !stopped
        invariant buffer == Loaded(lib, old(buffer), Capacity(), file[..line])
      {
        var host := lib.parse(file[line]);
        if host.None? {
          ReadableStops(lib, file, line);
          return MALFORMED;
        }
        ReadablePasses(lib, file, line);
        LoadedStep(lib, old(buffer), Capacity(), file, line);
        LoadHost(host.value);
        line := line + 1;
      }
      return Success;
    }

    /**
     Saves the pool to the file and clears it. Only a bad stream is reported: a stream that failed to
     open writes nothing, and the pool is cleared all the same.
     */
    method Stop(stream: Stream) returns (ec: Code)
      requires Valid()
      modifies this
      ensures Valid()
      ensures Disabled() || old(stopped) ==>
              ec == Success && buffer == old(buffer) && stopped == old(stopped) && file == old(file)
      ensures !Disabled() && !old(stopped) ==>
              && stopped
              && ec == (if stream.Bad? then FileSystem else Success)
              && buffer == (if stream.Bad? then old(buffer) else [])
              && file == if stream.Good? then Saved(lib, old(buffer)) else old(file)
    {
      if Disabled() { return Success; }
      if stopped { return Success; }
      stopped := true;
      if stream.Bad? { return FileSystem; }
      if stream.Good? {
        file := [];
        var i := 0;
        while i < |buffer|
          invariant 0 <= i <= |buffer| && buffer == old(buffer) && Valid() && stopped
          invariant file == Saved(lib, buffer)[..i]
        {
          file := file + [lib.format(Key(buffer[i]))];
          i := i + 1;
        }
      }
      buffer := [];
      return Success;
    }

    /** A stop that writes its file followed by a start restores the non-zero-port authorities, in order. */
    method StopThenStart() returns (ec: Code)
      requires Valid() && !Disabled() && !stopped && RoundTrips(lib)
      modifies this
      ensures Valid() && !stopped && ec == Success
      ensures Keys(buffer) == PortedKeys(old(buffer))
    {
      ghost var was := buffer;
      ec := Stop(Good);
      SaveLoad(lib, was, Capacity());
      AllReadable(lib, file);
      ec := Start(Good);
    }

    /** Removes the entry with this ip and port, keeping the others in order. */
    method Remove(host: Address) returns (ec: Code)
      requires Valid()
      modifies this`buffer
      ensures Valid()
      ensures ec == Success <==> !Disabled() && !stopped && Has(old(buffer), host)
      ensures ec == ServiceStopped <==> !Disabled() && stopped
      ensures ec == Success || ec == ServiceStopped || ec == NotFound
      ensures ec != Success ==> buffer == old(buffer)
      ensures ec == Success ==>
              exists i :: 0 <= i < |old(buffer)| && Key(old(buffer)[i]) == Key(host)
                          && buffer == old(buffer)[..i] + old(buffer)[i + 1..]
      ensures KeysDistinct(old(buffer)) ==> KeysDistinct(buffer) && (ec == Success ==> !Has(buffer, host))
    {
      if Disabled() { return NotFound; }
      if stopped { return ServiceStopped; }
      var i := Find(host);
      if i == |buffer| { return NotFound; }
      buffer := buffer[..i] + buffer[i + 1..];
      return Success;
    }

    /** Stores one address, if valid and not yet known. */
    method StoreOne(host: Address) returns (ec: Code)
      requires Valid()
      modifies this`buffer
      ensures Valid()
      ensures ec == if !Disabled() && lib.isValid(host) && stopped then ServiceStopped else Success
      ensures !Disabled() && lib.isValid(host) && !stopped ==>
              buffer == Stored(lib, old(buffer), Capacity(), [host]) && Has(buffer, host)
      ensures Disabled() || !lib.isValid(host) || stopped ==> buffer == old(buffer)
      ensures poolCapacity > 0 && lib.isValid(host) && !stopped ==>
              buffer == if Has(old(buffer), host) then old(buffer)
                        else if |old(buffer)| < poolCapacity then old(buffer) + [host]
                        else old(buffer)[1..] + [host]
      ensures poolCapacity == 0 ==> buffer == []
      ensures KeysDistinct(old(buffer)) ==> KeysDistinct(buffer)
    {
      hide Stored, Has, PushBack, KeysDistinct;
      PushCases(buffer, Capacity(), host);
      if Disabled() { return Success; }
      if !lib.isValid(host) { return Success; }
      if stopped { return ServiceStopped; }
      StoredStep(lib, buffer, Capacity(), [host], 0);
      StoredNothing(lib, buffer, Capacity());
      assert [host][..0] == [] && [host][..1] == [host];
      if KeysDistinct(buffer) { StoredDistinct(lib, buffer, Capacity(), [host]); }
      Offer(host);
      return Success;
    }

    /** Pushes an address that is valid and not yet known. */
    method Offer(host: Address)
      requires Valid() && !Disabled()
      modifies this`buffer
      ensures Valid()
      ensures buffer == if lib.isValid(host) && !Has(old(buffer), host)
                        then PushBack(old(buffer), Capacity(), host) else old(buffer)
      ensures lib.isValid(host) ==> Has(buffer, host)
    {
      if !lib.isValid(host) { return; }
      var i := Find(host);
      if i == |buffer| {
        buffer := PushBack(buffer, Capacity(), host);
        assert Key(buffer[|buffer| - 1]) == Key(host);
      }
    }

    /** The loop of the list store: looks at every step-th of the usable addresses. */
    method Take(hosts: seq<Address>, usable: nat, step: nat)
      requires Valid() && !Disabled() && step > 0 && usable <= |hosts| && usable <= Capacity()
      modifies this`buffer
      ensures Valid()
      ensures buffer == Stored(lib, old(buffer), Capacity(), Sampled(hosts, usable, step))
    {
      hide Stored, Has, PushBack, Cursor;
      ghost var looked := Sampled(hosts, usable, step);
      ghost var was := buffer;
      ghost var visited := 0;
      StoredNothing(lib, was, Capacity());
      CursorStart(usable, step);
      var index: nat := 0;
      assert looked[..0] == [];
      while index < usable
        invariant 0 <= visited <= |looked| && Cursor(usable, step, visited, index)
        invariant Valid() && buffer == Stored(lib, was, Capacity(), looked[..visited])
        decreases |looked| - visited
      {
        var host := hosts[index];
        CursorNext(hosts, usable, step, visited, index);
        StoredStep(lib, was, Capacity(), looked, visited);
        Offer(host);
        index := CeilingAdd(index, step);
        visited := visited + 1;
      }
      CursorEnd(usable, step, visited, index);
      assert looked[..visited] == looked;
    }

    /**
     Stores a sample of a peer's addresses: positions 0, step, 2 * step, ..., with the step chosen so
     that at least the pool's shortfall is looked at when available.
     */
    method StoreList(hosts: seq<Address>, draw: nat) returns (ec: Code)
      requires Valid() && |hosts| <= MAX_SIZE
      requires hosts != [] ==> 1 <= draw <= Min(|hosts|, Capacity())
      modifies this`buffer
      ensures Valid()
      ensures ec == if !Disabled() && hosts != [] && stopped then ServiceStopped else Success
      ensures Disabled() || hosts == [] || stopped ==> buffer == old(buffer)
      ensures !Disabled() && hosts != [] && !stopped ==>
              var usable := Min(|hosts|, Capacity());
              var accept := Max(Capacity() - |old(buffer)|, draw);
              var looked := Sampled(hosts, usable, Stride(usable, accept));
              && buffer == Stored(lib, old(buffer), Capacity(), looked)
              && |buffer| == Min(poolCapacity, |old(buffer)| + |Accepted(lib, old(buffer), poolCapacity, looked)|)
              && Min(usable, accept) <= |looked| <= Min(usable, 2 * accept - 1)
      ensures KeysDistinct(old(buffer)) ==> KeysDistinct(buffer)
    {
      hide KeysDistinct, Stored, Accepted;
      if Disabled() || hosts == [] { return Success; }
      if stopped { return ServiceStopped; }
      var capacity := Capacity();
      var usable := Min(|hosts|, capacity);
      var gap: nat := capacity - |buffer|;
      var accept := Max(gap, draw);
      var step := Max(usable / accept, 1);
      ghost var was := buffer;
      Take(hosts, usable, step);
      SamplingBound(usable, accept);
      StoredMeetsSpec(lib, was, capacity, Sampled(hosts, usable, step));
      if KeysDistinct(was) { StoredDistinct(lib, was, capacity, Sampled(hosts, usable, step)); }
      return Success;
    }
  }

  /** The loop index of the list store at its k-th visit; past the last one it is out of range. */
  ghost predicate Cursor(usable: nat, step: nat, k: nat, index: nat)
    requires step > 0
  {
    if k < Visits(usable, step) then index == k * step && index < usable else index >= usable
  }

  lemma CursorStart(usable: nat, step: nat)
    requires step > 0
    ensures Cursor(usable, step, 0, 0)
  {
    VisitExists(usable, step, 0);
  }

  /** The saturating addition reaches every sampled position and then leaves the range. */
  lemma CursorNext(hosts: seq<Address>, usable: nat, step: nat, k: nat, index: nat)
    requires step > 0 && usable <= MAX_SIZE && usable <= |hosts| && Cursor(usable, step, k, index) && index < usable
    ensures k < Visits(usable, step) && Sampled(hosts, usable, step)[k] == hosts[index]
    ensures Cursor(usable, step, k + 1, CeilingAdd(index, step))
  {
    VisitExists(usable, step, k + 1);
    assert (k + 1) * step == k * step + step;
    assert Sampled(hosts, usable, step)[k] == hosts[k * step];
  }

  /** Out of range means past the last visit. */
  lemma CursorEnd(usable: nat, step: nat, k: nat, index: nat)
    requires step > 0 && Cursor(usable, step, k, index) && index >= usable
    ensures k >= Visits(usable, step)
  {
  }

  lemma PushCases(pool: seq<Address>, capacity: nat, a: Address)
    requires capacity > 0 && |pool| <= capacity
    ensures PushBack(pool, capacity, a) == if |pool| < capacity then pool + [a] else pool[1..] + [a]
  {
  }

  lemma StoredNothing(lib: Library, pool: seq<Address>, capacity: nat)
    requires |pool| <= capacity
    ensures Stored(lib, pool, capacity, []) == pool
  {
    assert pool + [] == pool;
  }

  lemma AllReadable(lib: Library, lines: seq<string>)
    requires WellFormed(lib, lines)
    ensures Readable(lib, lines) == |lines| && lines[..|lines|] == lines
  {
  }

  lemma {:induction false} ReadablePasses(lib: Library, lines: seq<string>, k: nat)
    requires k < |lines| && k <= Readable(lib, lines) && lib.parse(lines[k]).Some?
    ensures k + 1 <= Readable(lib, lines)
  {
  }

  lemma {:induction false} ReadableStops(lib: Library, lines: seq<string>, k: nat)
    requires k < |lines| && k <= Readable(lib, lines) && lib.parse(lines[k]).None?
    ensures Readable(lib, lines) == k
  {
  }
}
