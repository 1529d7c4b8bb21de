/** `LoopbackSource` of `stardustlib/storage_source.py`: files in a companion
    directory, and a counter of the bytes used. */
module Sources {
  import opened Rows
  import opened Numbers
  import opened Crypto
  import opened Sums

  const MIN_LOOPBACK_SIZE := 10485760
  const MAX_LOOPBACK_SIZE := 2199023255552

  datatype IoError = Inactive | Missing | NoSpace

  datatype Io<+T> = Good(value: T) | Bad(error: IoError)

  function Sizes(files: map<string, Bytes>): map<string, nat> {
    map f | f in files :: |files[f]|
  }

  ghost function Stored(files: map<string, Bytes>): nat {
    Sum(Sizes(files))
  }

  function SizeAt(files: map<string, Bytes>, f: string): nat {
    if f in files then |files[f]| else 0
  }

  predicate TopLevel(f: string) {
    '/' !in f
  }

  /** Files in the directory; `""` is the companion directory itself. */
  predicate Under(dir: string, f: string) {
    dir == "" || dir + "/" <= f
  }

  /** The files that removing a directory takes: all of them for the companion
      directory, otherwise those whose path goes on behind the directory's slash. */
  lemma UnderIff(dir: string, f: string)
    ensures Under(dir, f) <==> dir == "" || exists rest: string :: f == dir + "/" + rest
  {
    if Under(dir, f) && dir != "" {
      assert f == dir + "/" + f[|dir| + 1..];
    }
  }

  lemma StoredPut(files: map<string, Bytes>, f: string, data: Bytes)
    ensures Stored(files[f := data]) == Stored(files) - SizeAt(files, f) + |data|
    ensures SizeAt(files, f) <= Stored(files)
  {
    SumPut(Sizes(files), f, |data|);
    assert Sizes(files[f := data]) == Sizes(files)[f := |data|];
    if f in files { SumRemove(Sizes(files), f); }
  }

  lemma StoredRemove(files: map<string, Bytes>, f: string)
    requires f in files
    ensures Stored(files - {f}) == Stored(files) - |files[f]|
  {
    SumRemove(Sizes(files), f);
    assert Sizes(files - {f}) == Sizes(files) - {f};
  }

  lemma StoredSubset(files: map<string, Bytes>, fs: set<string>)
    ensures Stored(files - fs) <= Stored(files)
  {
    SumSubset(Sizes(files), fs);
    assert Sizes(files - fs) == Sizes(files) - fs;
  }

  class LoopbackSource {
    const id: string
    const capacity: nat
    var files: map<string, Bytes>
    var used: nat
    var active: bool

    /** The books: the counter covers the files and stays within the container. */
    ghost predicate Valid()
      reads this`files, this`used
    {
      Stored(files) <= used <= capacity
    }

    /** How far the counter is ahead of the files; only `Rmdir` makes it grow. */
    ghost function Drift(): int
      reads this`files, this`used
    {
      used - Stored(files)
    }

    /** A new container, mounted. */
    constructor (id: string, capacity: nat)
      requires MIN_LOOPBACK_SIZE <= capacity <= MAX_LOOPBACK_SIZE
      ensures Valid() && files == map[] && used == 0 && active && this.id == id && this.capacity == capacity
    {
      this.id, this.capacity, files, used, active := id, capacity, map[], 0, true;
    }

    /** Sizes outside the permitted range are refused. */
    static method Open(id: string, capacity: int) returns (s: Option<LoopbackSource>)
      ensures s.Some? <==> 10485760 <= capacity <= 2199023255552
      ensures s.Some? ==> fresh(s.value) && s.value.Valid() && s.value.files == map[] && s.value.capacity == capacity
    {
      if capacity < MIN_LOOPBACK_SIZE || capacity > MAX_LOOPBACK_SIZE {
        return None;
      }
      var source := new LoopbackSource(id, capacity);
      s := Some(source);
    }

    /** `_mount`: the counter is recomputed by a full scan, which removes the drift. */
    method Mount()
      requires Valid()
      modifies this`used, this`active
      ensures Valid() && active && Drift() == 0 && used <= old(used)
    {
      var total := 0;
      var rest := Sizes(files);
      while rest != map[]
        invariant total + Sum(rest) == Stored(files)
        decreases |rest|
      {
        var f :| f in rest;
        SumRemove(rest, f);
        total := total + rest[f];
        rest := rest - {f};
      }
      used, active := total, true;
    }

    method Deactivate()
      modifies this`active
      ensures !active
    {
      active := false;
    }

    method Read(f: string) returns (r: Io<Bytes>)
      ensures r == if !active then Bad(Inactive) else if f in files then Good(files[f]) else Bad(Missing)
    {
      if !active {
        return Bad(Inactive);
      }
      if f !in files {
        return Bad(Missing);
      }
      r := Good(files[f]);
    }

    /** Space is checked against the growth of the file only; a refused write
        changes nothing. */
    method Write(f: string, data: Bytes) returns (r: Io<()>)
      requires Valid()
      modifies this`files, this`used
      ensures Valid() && Drift() == old(Drift())
      ensures r.Good? <==> active && (|data| <= SizeAt(old(files), f) || |data| - SizeAt(old(files), f) <= capacity - old(used))
      ensures files == if r.Good? then old(files)[f := data] else old(files)
      ensures r.Bad? ==> used == old(used) && r.error == if active then NoSpace else Inactive
    {
      if !active {
        return Bad(Inactive);
      }
      var existing := 0;
      if f in files {
        existing := |files[f]|;
      }
      var needed := |data| - existing;
      if needed > 0 && needed > capacity - used {
        return Bad(NoSpace);
      }
      StoredPut(files, f, data);
      files := files[f := data];
      used := used + (|data| - existing);
      r := Good(());
    }

    method Delete(f: string) returns (r: Io<()>)
      requires Valid()
      modifies this`files, this`used
      ensures Valid() && Drift() == old(Drift())
      ensures r == if active then Good(()) else Bad(Inactive)
      ensures files == if active then old(files) - {f} else old(files)
      ensures r.Bad? ==> used == old(used)
    {
      if !active {
        return Bad(Inactive);
      }
      if f in files {
        var size := |files[f]|;
        StoredRemove(files, f);
        files := files - {f};
        used := AtLeastZero(used - size);
      } else {
        assert files - {f} == files;
      }
      r := Good(());
    }

    /** `rmdir` removes a whole directory and leaves the counter as it is. */
    method Rmdir(dir: string) returns (r: Io<()>)
      requires Valid()
      modifies this`files
      ensures Valid() && r == if active then Good(()) else Bad(Inactive)
      ensures files == if active then (map f | f in old(files) && !Under(dir, f) :: old(files)[f]) else old(files)
      ensures Drift() >= old(Drift())
    {
      if !active {
        return Bad(Inactive);
      }
      ghost var gone := set f | f in files && Under(dir, f);
      StoredSubset(files, gone);
      var kept := map f | f in files && !Under(dir, f) :: files[f];
      assert kept == files - gone;
      files := kept;
      r := Good(());
    }

    method GetAvailableSpace() returns (r: Io<nat>)
      requires Valid()
      ensures r == if active then Good(capacity - used) else Bad(Inactive)
    {
      if !active {
        return Bad(Inactive);
      }
      r := Good(AtLeastZero(capacity - used));
    }

    /** Files directly in the companion directory; nested ones are not listed. */
    method ListPhysicalFiles() returns (r: Io<set<string>>)
      ensures r == if active then Good(set f | f in files && TopLevel(f)) else Bad(Inactive)
    {
      if !active {
        return Bad(Inactive);
      }
      r := Good(set f | f in files && TopLevel(f));
    }
  }
}
