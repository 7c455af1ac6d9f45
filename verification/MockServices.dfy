/**
 The objects of hook/hooktest/service.go: one table of installed services, shared by every
 osService, and an object for each service that was ever installed, which its watchers keep
 referring to after it has left the table. Each method is one section under the mutex, and is
 proved to be the step of ServiceManager of that name.
 */
module MockServices {
  import opened Wrappers
  import opened ServiceManager

  class InstalledService {
    const name: string
    const id: nat
    var cmd: Option<nat>

    constructor (name: string, id: nat)
      ensures this.name == name && this.id == id && cmd == None
    {
      this.name := name;
      this.id := id;
      cmd := None;
    }
  }

  class OSServices {
    var installed: map<string, InstalledService>
    var log: seq<Event>

    /** How many services were ever installed: stands for the identity of the next one. */
    var count: nat

    /** Every service ever installed, and the state of the world that the fields represent. */
    ghost var objects: seq<InstalledService>
    ghost var world: World

    ghost predicate Valid()
      reads this, objects
    {
      && Sane(world)
      && world.log == log
      && |world.insts| == |objects| == count
      && (forall i :: 0 <= i < |objects| ==>
            objects[i].id == i && world.insts[i] == Inst(objects[i].name, objects[i].cmd))
      && installed.Keys == world.installed.Keys
      && (forall n :: n in installed ==>
            installed[n].id == world.installed[n] && objects[world.installed[n]] == installed[n])
    }

    constructor ()
      ensures Valid() && world == EMPTY && objects == []
    {
      installed := map[];
      log := [];
      count := 0;
      objects := [];
      world := EMPTY;
    }

    method Notify(kind: Kind, isvc: InstalledService, run: nat)
      modifies this`log
      ensures log == old(log) + [Event(kind, isvc.name, isvc.id, run)]
    {
      log := log + [Event(kind, isvc.name, isvc.id, run)];
    }

    method Install(name: string)
      requires Valid()
      modifies this
      ensures Valid() && world == Apply(old(world), ServiceManager.Install(name))
      ensures |objects| <= |old(objects)| + 1 && old(objects) <= objects
      ensures forall o :: o in objects && o !in old(objects) ==> fresh(o)
    {
      if name in installed {
        return;
      }
      var isvc := new InstalledService(name, count);
      installed := installed[name := isvc];
      count := count + 1;
      objects := objects + [isvc];
      Notify(InstallEvent, isvc, 0);
      world := Apply(world, ServiceManager.Install(name));
    }

    /** Start. A started command is named by its position in the log; its watcher is now pending. */
    method Start(name: string, started: Started) returns (ok: bool)
      requires Valid()
      modifies this, objects
      ensures Valid() && world == Apply(old(world), ServiceManager.Start(name, started))
      ensures objects == old(objects) && ok == (name in installed)
    {
      if name !in installed {
        return false;
      }
      var isvc := installed[name];
      if isvc.cmd.Some? {
        return true;
      }
      var run := |log|;
      if started.RunFails? {
        Notify(ErrorEvent, isvc, run);
      } else {
        Notify(StartEvent, isvc, run);
        if started.RunsToEnd? {
          Notify(StopEvent, isvc, run);
        } else {
          isvc.cmd := Some(run);
        }
      }
      world := Apply(world, ServiceManager.Start(name, started));
      return true;
    }

    method Stop(name: string, failed: bool)
      requires Valid()
      modifies this, objects
      ensures Valid() && world == Apply(old(world), ServiceManager.Stop(name, failed))
      ensures objects == old(objects)
    {
      if name !in installed || installed[name].cmd.None? {
        return;
      }
      var isvc := installed[name];
      var run := isvc.cmd.value;
      if failed {
        Notify(ErrorEvent, isvc, run);
      }
      Notify(StopEvent, isvc, run);
      isvc.cmd := None;
      world := Apply(world, ServiceManager.Stop(name, failed));
    }

    /** The section of StopAndRemove that follows its call to Stop. */
    method Remove(name: string)
      requires Valid()
      modifies this
      ensures Valid() && world == Apply(old(world), ServiceManager.Remove(name))
      ensures objects == old(objects)
    {
      if name in installed {
        var isvc := installed[name];
        installed := installed - {name};
        Notify(RemoveEvent, isvc, 0);
      }
      world := Apply(world, ServiceManager.Remove(name));
    }

    method Running(name: string) returns (running: bool)
      requires Valid()
      ensures running == ServiceManager.Running(world, name)
    {
      running := name in installed && installed[name].cmd.Some?;
    }

    /** The watcher goroutine of `run`, once cmd.Wait has returned, up to taking the mutex. */
    method WatchWait(isvc: InstalledService, run: nat, failed: bool)
      requires Valid() && isvc in objects
      requires Watcher(isvc.id, run, false) in world.watchers
      modifies this
      ensures Valid() && world == Apply(old(world), ServiceManager.WatchWait(Watcher(isvc.id, run, false), failed))
      ensures objects == old(objects)
    {
      if failed {
        Notify(ErrorEvent, isvc, run);
      }
      world := Apply(world, ServiceManager.WatchWait(Watcher(isvc.id, run, false), failed));
    }

    /** The watcher goroutine of `run`, with the mutex. */
    method WatchEnd(isvc: InstalledService, run: nat)
      requires Valid() && isvc in objects
      requires Watcher(isvc.id, run, true) in world.watchers
      modifies this, objects
      ensures Valid() && world == Apply(old(world), ServiceManager.WatchEnd(Watcher(isvc.id, run, true)))
      ensures objects == old(objects)
    {
      if isvc.cmd == Some(run) {
        Notify(StopEvent, isvc, run);
        isvc.cmd := None;
      }
      world := Apply(world, ServiceManager.WatchEnd(Watcher(isvc.id, run, true)));
    }
  }
}
