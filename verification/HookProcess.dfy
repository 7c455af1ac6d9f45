/**
 The objects behind hook.Main, hook/main.go and hook/state.go: the process whose registered
 values are updated in place, and the disk it loads them from and saves them to. Each loop is
 proved to be the function of HookRuns that the theorems about runs are about.
 */
module HookProcess {
  import opened Wrappers
  import opened HookRuns

  /** A PersistentState, and the file system under it. */
  class DiskState {
    var files: Disk

    constructor (files: Disk)
      ensures this.files == files
    {
      this.files := files;
    }

    /** `works` is whether the file could be written; if not, `left` is what is there now. */
    method Save(name: string, data: Bytes, works: bool, left: Option<Bytes>) returns (ok: bool)
      modifies this
      ensures ok == works
      ensures files == if works then old(files)[name := data]
                       else if left.Some? then old(files)[name := left.value] else old(files) - {name}
    {
      if works {
        files := files[name := data];
      } else if left.Some? {
        files := files[name := left.value];
      } else {
        files := files - {name};
      }
      return works;
    }

    /** `works` is whether reading works; a file that is not there is no failure, and has no data. */
    method Load(name: string, works: bool) returns (data: Option<Bytes>, ok: bool)
      ensures ok == works
      ensures data == if works && name in files then Some(files[name]) else None
    {
      if !works || name !in files {
        return None, works;
      }
      return Some(files[name]), true;
    }
  }

  /** A hook process: the registered state values, which loading, setters and hooks update in place. */
  class Process<V> {
    const codec: Codec<V>
    const reg: Registered<V>
    const state: DiskState
    var vals: seq<V>

    constructor (codec: Codec<V>, reg: Registered<V>, state: DiskState)
      requires WellFormed(reg)
      ensures this.codec == codec && this.reg == reg && this.state == state && vals == reg.initial
    {
      this.codec := codec;
      this.reg := reg;
      this.state := state;
      vals := reg.initial;
    }

    method LoadState(reading: Reading) returns (ok: bool)
      requires |vals| == |reg.names|
      modifies this
      ensures |vals| == |reg.names|
      ensures ok <==> LoadFrom(codec, reg.names, state.files, reading, old(vals), 0).Some?
      ensures ok ==> LoadFrom(codec, reg.names, state.files, reading, old(vals), 0) == Some(vals)
    {
      for i := 0 to |reg.names|
        invariant |vals| == |reg.names|
        invariant LoadFrom(codec, reg.names, state.files, reading, vals, i)
                  == LoadFrom(codec, reg.names, state.files, reading, old(vals), 0)
      {
        var data, read := state.Load(reg.names[i], reading != ReadFails(i));
        if !read {
          return false;
        }
        if data.Some? {
          var v := codec.decode(vals[i], data.value);
          if v.None? {
            return false;
          }
          vals := vals[i := v.value];
        }
      }
      return true;
    }

    method SaveState(how: Saving) returns (ok: bool)
      requires |vals| == |reg.names|
      modifies state
      ensures ok == SaveSucceeds(reg.names, how)
      ensures state.files == Save(codec, reg.names, old(state.files), vals, how)
    {
      for i := 0 to |reg.names|
        invariant how.SaveFails? ==> i <= how.at
        invariant state.files == SaveTo(codec, reg.names, old(state.files), vals, i)
      {
        var data := codec.encode(vals[i]);
        var works := how.SaveOk? || how.at != i;
        var left := if how.SaveOk? then None else how.left;
        var saved := state.Save(reg.names[i], data, works, left);
        if !saved {
          return false;
        }
      }
      return true;
    }

    /** The loops of Main over context setters and hook functions. */
    method CallUntilError(fs: seq<Fn<V>>) returns (called: nat, ok: bool)
      requires |vals| == |reg.names|
      modifies this
      ensures Called(vals, called, ok) == CallAll(fs, old(vals)) && |vals| == |reg.names|
    {
      called := 0;
      while called < |fs|
        invariant called <= |fs| && |vals| == |reg.names|
        invariant CallAll(fs[..called], old(vals)) == Called(vals, called, true)
      {
        assert fs[..called + 1][..called] == fs[..called];
        var (after, good) := Run1(fs[called], vals);
        vals := after;
        called := called + 1;
        if !good {
          CallsStop(fs, old(vals), called);
          return called, false;
        }
      }
      assert fs[..called] == fs;
      return called, true;
    }

    /** Main, for a hook. */
    method RunHook(io: IO) returns (called: nat, ok: bool)
      requires WellFormed(reg) && vals == reg.initial
      modifies this, state
      ensures var o := HookRuns.RunHook(codec, reg, old(state.files), io);
              && called == o.called && ok == o.ok && state.files == o.disk
              && (o.loaded.Some? ==> vals == o.end)
    {
      var loaded := LoadState(io.reading);
      if !loaded {
        return 0, false;
      }
      var _, contexts := CallUntilError(reg.setters);
      if !contexts {
        return 0, false;
      }
      called, ok := 0, false;
      if |reg.specific| > 0 {
        called, ok := CallUntilError(reg.specific + reg.wildcard);
      }
      var saved := SaveState(io.saving);
      ok := ok && saved;
    }
  }
}
