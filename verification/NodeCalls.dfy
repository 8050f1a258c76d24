/** Node calls that nothing interrupts and no fault meets: what each does, what repeats of it do, what undoes it. */
module NodeCalls {
  import opened Bytes
  import opened Wrappers
  import opened VolumeOptions
  import opened Node
  import opened NodeAlone
  import opened NodeStacking

  /** A whole call without interruption or fault: the state it leaves and where it ends. */
  function Call(sh: Shared, req: Request): (Shared, Pc) {
    var own := Own(sh, Start(req), Same(NO_FAULT, 10));
    (own.0, own.1.pc)
  }

  function Layers(sh: Shared, path: Str): seq<Layer> {
    if path in sh.table then sh.table[path] else []
  }

  function WithLayers(sh: Shared, path: Str, layers: seq<Layer>): Shared {
    sh.(table := sh.table[path := layers])
  }

  /** Validation and lock take two steps. */
  lemma OwnEnters(sh: Shared, req: Request)
    requires req.valid && (req.Stage? ==> req.path in sh.table) && req.vol !in sh.locks
    ensures Own(sh, Start(req), Same(NO_FAULT, 10))
         == Own(sh.(locks := sh.locks + {req.vol}), Step(sh, Thread(req, TryLock, false), NO_FAULT).1, Same(NO_FAULT, 8))
  {
    hide Own;
    OwnNext(sh, Start(req), 10);
    OwnNext(sh, Thread(req, TryLock, false), 9);
  }

  /** Release and reply take two steps. */
  lemma OwnLeaves(sh: Shared, req: Request, resp: Response, n: nat)
    requires n >= 2
    ensures Own(sh, Thread(req, Return(resp), true), Same(NO_FAULT, n))
         == (sh.(locks := sh.locks - {req.vol}), Thread(req, Finished(resp), false))
  {
    hide Own;
    var free := sh.(locks := sh.locks - {req.vol});
    OwnNext(sh, Thread(req, Return(resp), true), n);
    OwnNext(free, Thread(req, Return(resp), false), n - 1);
    OwnFinished(free, Thread(req, Finished(resp), false), Same(NO_FAULT, n - 2));
  }

  lemma LockAndFree(locks: set<Str>, vol: Str)
    requires vol !in locks
    ensures locks + {vol} - {vol} == locks
  {
  }

  function Staged(req: Request): Layer {
    Volume(req.vol, Answering)
  }

  /** The mount that a request makes if it gets that far: a stage its own, a publish what its staging path shows. */
  ghost function Gives(sh: Shared, req: Request): Option<Layer> {
    if Stageable(req) && req.path in sh.table then Some(Staged(req))
    else if req.Publish? && req.staging != req.path then Source(sh.table, req.staging, NO_FAULT)
    else None
  }

  /** A stage or publish that can make a mount, on a path that may have some. */
  ghost predicate Ready(sh: Shared, req: Request, layer: Layer) {
    req.valid && req.vol !in sh.locks && Gives(sh, req) == Some(layer)
  }

  /** A stage or publish that gets past its checks and its lock. */
  predicate Enters(sh: Shared, req: Request) {
    req.valid && req.vol !in sh.locks && ((req.Stage? && req.path in sh.table) || req.Publish?)
  }

  predicate Broken(layers: seq<Layer>) {
    layers != [] && !Top(layers).Readable()
  }

  lemma ReadyEnters(sh: Shared, req: Request, layer: Layer)
    requires Ready(sh, req, layer)
    ensures Enters(sh, req)
  {
    hide StageOptions;
  }

  /** On a broken mount the call unmounts it and fails with the error of the look that found it. */
  lemma CallOnBroken(sh: Shared, req: Request)
    requires Enters(sh, req) && Broken(Layers(sh, req.path))
    ensures Call(sh, req) == (WithLayers(sh, req.path, Pop(Layers(sh, req.path))), Finished(Failed(Internal)))
  {
    hide Own, StageOptions;
    OwnEnters(sh, req);
    LockAndFree(sh.locks, req.vol);
    var held, layers := sh.(locks := sh.locks + {req.vol}), sh.table[req.path];
    OwnNext(held, Thread(req, Probe, true), 8);
    if Top(layers).Dead() {
      OwnNext(held, Thread(req, ProbeCorrupted, true), 7);
      UnmountsAndFails(held, req, 6);
    } else {
      UnmountsAndFails(held, req, 7);
    }
  }

  lemma UnmountsAndFails(held: Shared, req: Request, n: nat)
    requires n >= 4 && req.path in held.table && Broken(held.table[req.path])
    ensures Own(held, Thread(req, ReadDir, true), Same(NO_FAULT, n))
         == (WithLayers(held, req.path, Pop(held.table[req.path])).(locks := held.locks - {req.vol}),
             Thread(req, Finished(Failed(Internal)), false))
  {
    hide Own, StageOptions;
    OwnNext(held, Thread(req, ReadDir, true), n);
    OwnNext(held, Thread(req, UnmountInvalid, true), n - 1);
    OwnLeaves(WithLayers(held, req.path, Pop(held.table[req.path])), req, Failed(Internal), n - 2);
  }

  /** A mount that shows and can be read: a healthy one, or a directory of another file system. */
  predicate Lasts(layer: Layer) {
    layer != Local && layer.Readable()
  }

  /** On such a mount the call succeeds and changes nothing. */
  lemma CallOnHealthy(sh: Shared, req: Request)
    requires Enters(sh, req) && Layers(sh, req.path) != [] && Lasts(Top(Layers(sh, req.path)))
    ensures Call(sh, req) == (sh, Finished(Succeeded))
  {
    hide Own, StageOptions;
    OwnEnters(sh, req);
    LockAndFree(sh.locks, req.vol);
    var held := sh.(locks := sh.locks + {req.vol});
    OwnNext(held, Thread(req, Probe, true), 8);
    OwnNext(held, Thread(req, ReadDir, true), 7);
    OwnLeaves(held, req, Succeeded, 6);
  }

  /** On a path without a mount that shows, or without even a directory for a publish, the call makes its mount. */
  lemma CallOnBare(sh: Shared, req: Request, layer: Layer)
    requires Ready(sh, req, layer) && Bare(Layers(sh, req.path))
    ensures Call(sh, req) == (WithLayers(sh, req.path, Layers(sh, req.path) + [layer]), Finished(Succeeded))
  {
    hide Own, StageOptions;
    OwnEnters(sh, req);
    LockAndFree(sh.locks, req.vol);
    var held, layers := sh.(locks := sh.locks + {req.vol}), Layers(sh, req.path);
    OwnNext(held, Thread(req, Probe, true), 8);
    OwnNext(held, Thread(req, MakeDirectory, true), 7);
    var made := WithLayers(held, req.path, layers);
    assert req.path in sh.table ==> made == held;
    if req.Stage? {
      OwnNext(made, Thread(req, MakeOptions, true), 6);
      OwnNext(made, Thread(req, FuseMount, true), 5);
      MountsAndLeaves(sh, made, req, layer, 4);
    } else {
      OwnNext(made, Thread(req, BindMount, true), 6);
      MountsAndLeaves(sh, made, req, layer, 5);
    }
  }

  lemma MountsAndLeaves(sh: Shared, made: Shared, req: Request, layer: Layer, n: nat)
    requires n >= 2 && req.vol !in sh.locks
    requires made == WithLayers(sh, req.path, Layers(sh, req.path)).(locks := sh.locks + {req.vol})
    ensures Own(made.(table := made.table[req.path := made.table[req.path] + [layer]]),
                Thread(req, Return(Succeeded), true), Same(NO_FAULT, n))
         == (WithLayers(sh, req.path, Layers(sh, req.path) + [layer]), Thread(req, Finished(Succeeded), false))
  {
    hide Own;
    LockAndFree(sh.locks, req.vol);
    var mounted := made.(table := made.table[req.path := made.table[req.path] + [layer]]);
    OwnLeaves(mounted, req, Succeeded, n);
    assert mounted.table == sh.table[req.path := Layers(sh, req.path) + [layer]];
  }

  // ---------- repeating a call ----------

  function Repeat(sh: Shared, req: Request, n: nat): Shared {
    if n == 0 then sh else Call(Repeat(sh, req, n - 1), req).0
  }

  /** How many broken mounts lie on top of each other. */
  function BrokenDepth(layers: seq<Layer>): (k: nat)
    ensures k <= |layers|
  {
    if Broken(layers) then 1 + BrokenDepth(Pop(layers)) else 0
  }

  lemma {:induction false} BrokenDownTo(layers: seq<Layer>, n: nat)
    requires n <= |layers|
    ensures n < BrokenDepth(layers) ==> Broken(layers[..|layers| - n])
    ensures n == BrokenDepth(layers) ==> !Broken(layers[..|layers| - n])
  {
    if n == 0 {
      assert layers[..|layers|] == layers;
    } else if Broken(layers) {
      BrokenDownTo(Pop(layers), n - 1);
      assert Pop(layers)[..|layers| - n] == layers[..|layers| - n];
    }
  }

  /** What n repetitions of a call that gives a lasting mount leave on the path. */
  function After(layers: seq<Layer>, layer: Layer, n: nat): seq<Layer> {
    var k := BrokenDepth(layers);
    if n <= k then layers[..|layers| - n]
    else if Bare(layers[..|layers| - k]) then layers[..|layers| - k] + [layer]
    else layers[..|layers| - k]
  }

  lemma ReadyStays(sh: Shared, req: Request, layer: Layer, layers: seq<Layer>)
    requires Ready(sh, req, layer)
    ensures Ready(WithLayers(sh, req.path, layers), req, layer)
  {
    hide StageOptions;
  }

  /**
   * Repeating a stage, or a publish from a mount that shows and can be read, fails once for each broken mount on top,
   * each time unmounting one; the next call succeeds, mounting if no mount shows there then, and every later one
   * succeeds and changes nothing.
   */
  lemma {:induction false} RepetitionRepairs(sh: Shared, req: Request, layer: Layer, n: nat)
    requires Ready(sh, req, layer) && Lasts(layer)
    ensures var layers, now := Layers(sh, req.path), Repeat(sh, req, n);
            && (n > 0 ==> now == WithLayers(sh, req.path, After(layers, layer, n)))
            && Call(now, req).1 == Finished(if n < BrokenDepth(layers) then Failed(Internal) else Succeeded)
  {
    hide Call, Ready, Enters, Step, Own;
    var layers := Layers(sh, req.path);
    var k := BrokenDepth(layers);
    var now := Repeat(sh, req, n);
    if n > 0 {
      RepetitionRepairs(sh, req, layer, n - 1);
      OneMoreCall(sh, req, layer, n - 1);
      ReadyStays(sh, req, layer, After(layers, layer, n));
    } else {
      assert layers[..|layers|] == layers;
    }
    if n < k {
      BrokenDownTo(layers, n);
      ReadyEnters(now, req, layer);
      CallOnBroken(now, req);
    } else {
      AfterIsSound(layers, layer, n);
      ReadyEnters(now, req, layer);
      if Bare(Layers(now, req.path)) { CallOnBare(now, req, layer); } else { CallOnHealthy(now, req); }
    }
  }

  lemma AfterIsSound(layers: seq<Layer>, layer: Layer, n: nat)
    requires Lasts(layer) && n >= BrokenDepth(layers)
    ensures !Broken(After(layers, layer, n)) && (n > BrokenDepth(layers) ==> !Bare(After(layers, layer, n)))
  {
    BrokenDownTo(layers, BrokenDepth(layers));
  }

  lemma OneMoreCall(sh: Shared, req: Request, layer: Layer, n: nat)
    requires Ready(sh, req, layer) && Lasts(layer)
    requires n > 0 ==> Repeat(sh, req, n) == WithLayers(sh, req.path, After(Layers(sh, req.path), layer, n))
    ensures Repeat(sh, req, n + 1) == WithLayers(sh, req.path, After(Layers(sh, req.path), layer, n + 1))
  {
    hide Call, Ready, Enters, Step, Own;
    var layers, now := Layers(sh, req.path), Repeat(sh, req, n);
    var k := BrokenDepth(layers);
    if n > 0 { ReadyStays(sh, req, layer, After(layers, layer, n)); }
    assert layers[..|layers|] == layers;
    BrokenDownTo(layers, if n <= k then n else k);
    if n < k {
      ReadyEnters(now, req, layer);
      CallOnBroken(now, req);
      assert Pop(layers[..|layers| - n]) == layers[..|layers| - n - 1];
    } else {
      AfterIsSound(layers, layer, n);
      ReadyEnters(now, req, layer);
      if Bare(Layers(now, req.path)) { CallOnBare(now, req, layer); } else { CallOnHealthy(now, req); }
    }
  }

  /**
   * A second call succeeds and changes nothing exactly when the mount that the first one made shows and can be
   * read.
   */
  lemma RepeatableIff(sh: Shared, req: Request, layer: Layer)
    requires Ready(sh, req, layer) && Bare(Layers(sh, req.path))
    ensures Call(Call(sh, req).0, req) == (Call(sh, req).0, Finished(Succeeded)) <==> Lasts(layer)
  {
    hide Call, Ready, Enters, Step, Own;
    var layers := Layers(sh, req.path);
    CallOnBare(sh, req, layer);
    var once := Call(sh, req).0;
    ReadyStays(sh, req, layer, layers + [layer]);
    assert Layers(once, req.path) == layers + [layer];
    if Lasts(layer) {
      ReadyEnters(once, req, layer);
      CallOnHealthy(once, req);
    } else if layer == Local {
      CallOnBare(once, req, layer);
      assert |Layers(Call(once, req).0, req.path)| == |Layers(once, req.path)| + 1;
    } else {
      ReadyEnters(once, req, layer);
      CallOnBroken(once, req);
    }
  }

  lemma Put(sh: Shared, path: Str, layers: seq<Layer>)
    ensures Layers(WithLayers(sh, path, layers), path) == layers
  {
  }

  lemma PutTwice(sh: Shared, path: Str, a: seq<Layer>, b: seq<Layer>)
    ensures WithLayers(WithLayers(sh, path, a), path, b) == WithLayers(sh, path, b)
  {
    assert sh.table[path := a][path := b] == sh.table[path := b];
  }

  function Locals(n: nat): (layers: seq<Layer>)
    ensures |layers| == n
  {
    seq(n, _ => Local)
  }

  /** Publishing from a directory that is not mounted, on its file system, succeeds every time and mounts every time. */
  lemma {:induction false} BareBindsPileUp(sh: Shared, req: Request, n: nat)
    requires Ready(sh, req, Local) && Bare(Layers(sh, req.path))
    ensures n > 0 ==> Repeat(sh, req, n) == WithLayers(sh, req.path, Layers(sh, req.path) + Locals(n))
    ensures Call(Repeat(sh, req, n), req).1 == Finished(Succeeded)
  {
    hide Call, Ready, Enters, Step, Own;
    var layers, now := Layers(sh, req.path), Repeat(sh, req, n);
    assert layers + Locals(0) == layers;
    if n > 0 {
      var piled := layers + Locals(n - 1);
      BareBindsPileUp(sh, req, n - 1);
      if n > 1 { ReadyStays(sh, req, Local, piled); }
      CallOnBare(Repeat(sh, req, n - 1), req, Local);
      assert piled + [Local] == layers + Locals(n);
      PutTwice(sh, req.path, piled, layers + Locals(n));
      ReadyStays(sh, req, Local, layers + Locals(n));
      assert Top(layers + Locals(n)) == Local;
    }
    CallOnBare(now, req, Local);
  }

  /**
   * Publishing from a mount that cannot be read succeeds with such a mount, which the same request then takes
   * away and fails.
   */
  lemma UnreadableIsPublished(sh: Shared, req: Request, vol: Str)
    requires Ready(sh, req, Volume(vol, Unreadable)) && Layers(sh, req.path) == []
    ensures Call(sh, req) == (WithLayers(sh, req.path, [Volume(vol, Unreadable)]), Finished(Succeeded))
    ensures Call(Call(sh, req).0, req) == (WithLayers(sh, req.path, []), Finished(Failed(Internal)))
  {
    hide Call, Ready, Enters, Step, Own, Gives, WithLayers;
    var layer := Volume(vol, Unreadable);
    CallOnBare(sh, req, layer);
    assert Layers(WithLayers(sh, req.path, [layer]), req.path) == [layer] by { Put(sh, req.path, [layer]); }
    assert [] + [layer] == [layer] && Pop([layer]) == [];
    ReadyStays(sh, req, layer, [layer]);
    ReadyEnters(WithLayers(sh, req.path, [layer]), req, layer);
    CallOnBroken(WithLayers(sh, req.path, [layer]), req);
    PutTwice(sh, req.path, [layer], []);
  }

  // ---------- unstage and unpublish ----------

  function Without(sh: Shared, path: Str): Shared {
    sh.(table := sh.table - {path})
  }

  /**
   * Unstage of a path that is missing, shows no mount or is unreachable changes nothing; only the second is a
   * success.
   */
  lemma UnstageLeaves(sh: Shared, req: Request)
    requires req.Unstage? && req.valid && req.vol !in sh.locks
    requires Bare(Layers(sh, req.path)) || Top(Layers(sh, req.path)).Dead()
    ensures Call(sh, req) == (sh, Finished(if req.path !in sh.table then Failed(NotFound)
                                           else if Bare(sh.table[req.path]) then Succeeded else Failed(Internal)))
  {
    hide Own;
    OwnEnters(sh, req);
    LockAndFree(sh.locks, req.vol);
    var held := sh.(locks := sh.locks + {req.vol});
    OwnNext(held, Thread(req, CheckMounted, true), 8);
    OwnLeaves(held, req, if req.path !in sh.table then Failed(NotFound)
                         else if Bare(sh.table[req.path]) then Succeeded else Failed(Internal), 7);
  }

  /** Unstage of a mounted path removes a single mount with its directory; of several it removes one and fails. */
  lemma UnstageUnmounts(sh: Shared, req: Request)
    requires req.Unstage? && req.valid && req.vol !in sh.locks
    requires !Bare(Layers(sh, req.path)) && !Top(Layers(sh, req.path)).Dead()
    ensures var layers := Layers(sh, req.path);
            Call(sh, req) == if |layers| == 1 then (Without(sh, req.path), Finished(Succeeded))
                             else (WithLayers(sh, req.path, Pop(layers)), Finished(Failed(Internal)))
  {
    hide Own, EnsureStep, MountStep;
    OwnEnters(sh, req);
    LockAndFree(sh.locks, req.vol);
    var held, layers := sh.(locks := sh.locks + {req.vol}), sh.table[req.path];
    OwnNext(held, Thread(req, CheckMounted, true), 8);
    OwnNext(held, Thread(req, CleanupExists, true), 7);
    OwnNext(held, Thread(req, CleanupProbe, true), 6);
    OwnNext(held, Thread(req, CleanupUnmount, true), 5);
    UnmountedLeaves(sh, req, 4);
  }

  /** After its unmount an unstage can remove the directory only if nothing else is mounted there. */
  lemma UnmountedLeaves(sh: Shared, req: Request, n: nat)
    requires n >= 4 && req.Unstage? && req.vol !in sh.locks && Layers(sh, req.path) != []
    ensures var layers := Layers(sh, req.path);
            var own := Own(WithLayers(sh, req.path, Pop(layers)).(locks := sh.locks + {req.vol}),
                           Thread(req, CleanupRecheck, true), Same(NO_FAULT, n));
            (own.0, own.1.pc) == if |layers| == 1 then (Without(sh, req.path), Finished(Succeeded))
                                 else (WithLayers(sh, req.path, Pop(layers)), Finished(Failed(Internal)))
  {
    hide Own, EnsureStep, MountStep;
    LockAndFree(sh.locks, req.vol);
    var layers := Layers(sh, req.path);
    var popped := WithLayers(sh, req.path, Pop(layers)).(locks := sh.locks + {req.vol});
    OwnNext(popped, Thread(req, CleanupRecheck, true), n);
    if |layers| == 1 {
      OwnNext(popped, Thread(req, CleanupRemove, true), n - 1);
      assert popped.table - {req.path} == sh.table - {req.path};
      OwnLeaves(popped.(table := sh.table - {req.path}), req, Succeeded, n - 2);
    } else if Bare(Pop(layers)) {
      OwnNext(popped, Thread(req, CleanupRemove, true), n - 1);
      OwnLeaves(popped, req, Failed(Internal), n - 2);
    } else {
      OwnLeaves(popped, req, Failed(Internal), n - 1);
    }
  }

  /** Unpublish succeeds exactly on a path with one mount, which it removes with its directory. */
  lemma UnpublishIff(sh: Shared, req: Request)
    requires req.Unpublish? && req.valid && req.vol !in sh.locks
    ensures var layers := Layers(sh, req.path);
            Call(sh, req) == if |layers| == 1 then (Without(sh, req.path), Finished(Succeeded))
                             else if layers == [] then (sh, Finished(Failed(Internal)))
                             else (WithLayers(sh, req.path, Pop(layers)), Finished(Failed(Internal)))
  {
    hide Own;
    OwnEnters(sh, req);
    LockAndFree(sh.locks, req.vol);
    var held, layers := sh.(locks := sh.locks + {req.vol}), Layers(sh, req.path);
    OwnNext(held, Thread(req, Umount, true), 8);
    if layers == [] {
      OwnLeaves(held, req, Failed(Internal), 7);
    } else {
      var popped := WithLayers(held, req.path, Pop(layers));
      OwnNext(popped, Thread(req, RemoveUnmounted, true), 7);
      if |layers| == 1 {
        assert popped.table - {req.path} == sh.table - {req.path};
        OwnLeaves(Without(held, req.path), req, Succeeded, 6);
      } else {
        OwnLeaves(popped, req, Failed(Internal), 6);
      }
    }
  }

  /** Unpublish is not idempotent: after a success the same request fails. */
  lemma UnpublishTwice(sh: Shared, req: Request)
    requires req.Unpublish? && req.valid && req.vol !in sh.locks && Call(sh, req).1 == Finished(Succeeded)
    ensures req.path !in Call(sh, req).0.table
    ensures Call(Call(sh, req).0, req) == (Call(sh, req).0, Finished(Failed(Internal)))
  {
    hide Call;
    UnpublishIff(sh, req);
    UnpublishIff(Call(sh, req).0, req);
  }

  /**
   * A staging path whose mount cannot be reached defeats unstage until a stage of it has failed; then unstage
   * succeeds.
   */
  lemma StageFreesUnstage(sh: Shared, stage: Request, unstage: Request, vol: Str)
    requires Ready(sh, stage, Staged(stage)) && stage.Stage? && unstage.Unstage? && unstage.valid
    requires stage.vol == unstage.vol && stage.path == unstage.path && Layers(sh, stage.path) == [Volume(vol, Unreachable)]
    ensures Call(sh, unstage) == (sh, Finished(Failed(Internal)))
    ensures Call(sh, stage).1 == Finished(Failed(Internal))
    ensures Call(Call(sh, stage).0, unstage) == (WithLayers(sh, stage.path, []), Finished(Succeeded))
  {
    hide Call, Step;
    UnstageLeaves(sh, unstage);
    CallOnBroken(sh, stage);
    assert Pop([Volume(vol, Unreachable)]) == [];
    UnstageLeaves(WithLayers(sh, stage.path, []), unstage);
  }

  // ---------- what undoes what ----------

  /** Unpublish undoes a publish to a path that was not there, whatever mount the publish made. */
  lemma UnpublishUndoesPublish(sh: Shared, publish: Request, unpublish: Request, layer: Layer)
    requires Ready(sh, publish, layer) && publish.Publish? && publish.path !in sh.table
    requires unpublish.Unpublish? && unpublish.valid && unpublish.vol == publish.vol && unpublish.path == publish.path
    ensures Call(sh, publish) == (WithLayers(sh, publish.path, [layer]), Finished(Succeeded))
    ensures Call(Call(sh, publish).0, unpublish) == (sh, Finished(Succeeded))
  {
    hide Call, StageOptions;
    CallOnBare(sh, publish, layer);
    assert [] + [layer] == [layer];
    var mounted := WithLayers(sh, publish.path, [layer]);
    UnpublishIff(mounted, unpublish);
    assert sh.table[publish.path := [layer]] - {publish.path} == sh.table;
  }

  /** Unstage undoes a stage of an empty directory, but takes the directory with it: the same stage is then refused. */
  lemma UnstageAfterStage(sh: Shared, stage: Request, unstage: Request)
    requires Ready(sh, stage, Staged(stage)) && stage.Stage? && Layers(sh, stage.path) == []
    requires unstage.Unstage? && unstage.valid && unstage.vol == stage.vol && unstage.path == stage.path
    ensures Call(sh, stage) == (WithLayers(sh, stage.path, [Staged(stage)]), Finished(Succeeded))
    ensures Call(Call(sh, stage).0, unstage) == (Without(sh, stage.path), Finished(Succeeded))
    ensures Call(Without(sh, stage.path), stage) == (Without(sh, stage.path), Finished(Failed(InvalidArgument)))
    ensures Call(Without(sh, stage.path), unstage) == (Without(sh, stage.path), Finished(Failed(NotFound)))
  {
    hide Call, StageOptions;
    CallOnBare(sh, stage, Staged(stage));
    assert [] + [Staged(stage)] == [Staged(stage)];
    var mounted := WithLayers(sh, stage.path, [Staged(stage)]);
    UnstageUnmounts(mounted, unstage);
    assert sh.table[stage.path := [Staged(stage)]] - {stage.path} == sh.table - {stage.path};
    StageOfMissing(Without(sh, stage.path), stage);
    UnstageLeaves(Without(sh, stage.path), unstage);
  }

  lemma StageOfMissing(sh: Shared, req: Request)
    requires req.Stage? && req.path !in sh.table
    ensures Call(sh, req) == (sh, Finished(Failed(InvalidArgument)))
  {
    hide Own;
    OwnNext(sh, Start(req), 10);
    OwnNext(sh, Thread(req, Return(Failed(InvalidArgument)), false), 9);
    OwnFinished(sh, Thread(req, Finished(Failed(InvalidArgument)), false), Same(NO_FAULT, 8));
  }
}
