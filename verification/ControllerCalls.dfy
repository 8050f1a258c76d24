/**
 * Controller calls that nothing interrupts and no fault meets: what each does, what repeats of it do, what
 * undoes it.
 */
module ControllerCalls {
  import opened Bytes
  import opened Wrappers
  import opened VolumeSize
  import opened Credentials
  import opened VolumeOptions
  import opened Controller
  import opened ControllerAlone
  import VolumeId

  /** No fault, and a free name for the key file. */
  function Calm(file: FileName): Choice {
    Choice(file, NoFault, false, false)
  }

  /** A whole call without interruption or fault: the state it leaves and where it ends. */
  function Call(sh: Shared, req: Request, file: FileName): (Shared, Pc) {
    var own := Own(sh, Start(req), seq(10, _ => Calm(file)));
    (own.0, own.1.pc)
  }

  /** The secret of a request makes credentials, and neither their file nor the lock is taken. */
  predicate Free(sh: Shared, req: Request, file: FileName) {
    Admin(req.secrets, file, true).Ok? && file !in sh.keys && req.LockId() !in sh.locks
  }

  function User(req: Request): Str
    requires ADMIN_NAME in req.secrets
  {
    req.secrets[ADMIN_NAME]
  }

  /** A create request that passes its checks. */
  predicate Accepted(req: Request) {
    && req.CreateVolume? && req.capable && req.name != [] && req.blockCaps != [] && true !in req.blockCaps
    && ADMIN_NAME in req.secrets
    && Fits(req.parameters, req.name, User(req))
  }

  function Wanted(req: Request): (vol: VolumeOptions)
    requires Accepted(req)
    ensures NewVolumeOptions(req.parameters, req.name, User(req), req.required) == Ok(vol)
  {
    AcceptedIff(req.parameters, req.name, User(req), req.required);
    NewVolumeOptions(req.parameters, req.name, User(req), req.required).value
  }

  /** The pool behind some options, for the user of a request. */
  function PoolFor(req: Request, vol: VolumeOptions): Pool
    requires ADMIN_NAME in req.secrets
  {
    Pool(vol.baseConfigURL, User(req), vol.volName)
  }

  lemma AdminUser(req: Request, file: FileName)
    requires Admin(req.secrets, file, true).Ok?
    ensures ADMIN_NAME in req.secrets && Admin(req.secrets, file, true).value == Credentials(User(req), file)
  {
  }

  /** Once it has its options, a create that meets no fault answers Created and sees to it that the pool is there. */
  lemma CreateOnceAccepted(sh: Shared, req: Request, cr: Credentials, defers: seq<Deferred>, outside: seq<Choice>)
    requires Accepted(req) && cr.userName == User(req)
    requires |outside| == 6 && forall i :: 0 <= i < 6 ==> !outside[i].commandFails
    requires |defers| == 2
    ensures var vol := Wanted(req);
            var own, pool := Own(sh, ThreadState(req, CreateOptions(cr), defers), outside), PoolFor(req, vol);
            && own.1.pc == Finished(Created(vol.volID, CreateReported(req.required)))
            && own.0.pools == if pool in sh.pools then sh.pools else sh.pools[pool := CreateQuotaGiB(req.required)]
  {
    hide Own, Step, RoundOffBytes, RoundUpGiB, Fits, NewVolumeOptions;
    var vol := Wanted(req);
    var pool, resp := PoolOf(cr, vol), Created(vol.volID, CreateReported(req.required));
    assert outside[0..] == outside;
    CreateSteps(sh, req, cr, defers, outside[0], outside[1], outside[2]);
    OwnStep(sh, ThreadState(req, CreateOptions(cr), defers), outside, 0);
    OwnStep(sh, ThreadState(req, CreateExists(cr, vol), defers), outside, 1);
    if pool in sh.pools {
      OwnReturns(sh, ThreadState(req, Return(resp), defers), outside[2..]);
    } else {
      OwnStep(sh, ThreadState(req, CreateCommand(cr, vol), defers), outside, 2);
      var made := sh.(pools := sh.pools[pool := CreateQuotaGiB(req.required)]);
      OwnReturns(made, ThreadState(req, Return(resp), defers), outside[3..]);
    }
  }

  /** The three steps of a create from its options on. */
  lemma CreateSteps(sh: Shared, req: Request, cr: Credentials, defers: seq<Deferred>, c0: Choice, c1: Choice, c2: Choice)
    requires Accepted(req) && cr.userName == User(req) && !c1.commandFails && !c2.commandFails
    ensures var vol := Wanted(req);
            var pool, resp := PoolOf(cr, vol), Created(vol.volID, CreateReported(req.required));
            var done := ThreadState(req, Return(resp), defers);
            && Step(sh, ThreadState(req, CreateOptions(cr), defers), c0)
               == (sh, ThreadState(req, CreateExists(cr, vol), defers))
            && Step(sh, ThreadState(req, CreateExists(cr, vol), defers), c1)
               == (sh, if pool in sh.pools then done else ThreadState(req, CreateCommand(cr, vol), defers))
            && (pool !in sh.pools ==>
                  Step(sh, ThreadState(req, CreateCommand(cr, vol), defers), c2)
                  == (sh.(pools := sh.pools[pool := CreateQuotaGiB(req.required)]), done))
  {
    hide RoundOffBytes, RoundUpGiB, VolumeId.Compose, DeleteStep, ExpandStep, Fits;
  }

  /** Capability, credentials, arguments and lock take four steps. */
  lemma CreateGetsLock(sh: Shared, req: Request, file: FileName, outside: seq<Choice>)
    requires Accepted(req) && Free(sh, req, file)
    requires |outside| >= 4 && forall i :: 0 <= i < 4 ==> outside[i] == Calm(file)
    ensures ADMIN_NAME in req.secrets
    ensures Own(sh, Start(req), outside)
         == Own(sh.(keys := sh.keys + {file}, locks := sh.locks + {req.name}),
                ThreadState(req, CreateOptions(Credentials(User(req), file)), [DeleteKey(file), ReleaseLock(req.name)]),
                outside[4..])
  {
    hide Own, RoundOffBytes, RoundUpGiB, Admin, Fits, DeleteStep, ExpandStep, NewVolumeOptions;
    AdminUser(req, file);
    var cr, key, lock := Credentials(User(req), file), DeleteKey(file), ReleaseLock(req.name);
    assert outside[0..] == outside && [] + [key] == [key] && [key] + [lock] == [key, lock];
    OwnStep(sh, Start(req), outside, 0);
    OwnStep(sh, ThreadState(req, CreateCredentials, []), outside, 1);
    var sh1 := sh.(keys := sh.keys + {file});
    OwnStep(sh1, ThreadState(req, CreateCheckArguments(cr), [key]), outside, 2);
    OwnStep(sh1, ThreadState(req, CreateLock(cr), [key]), outside, 3);
  }

  lemma CreateByItself(sh: Shared, req: Request, file: FileName, outside: seq<Choice>)
    requires Accepted(req) && Free(sh, req, file)
    requires |outside| == 10 && forall i :: 0 <= i < 10 ==> outside[i] == Calm(file)
    ensures var vol := Wanted(req);
            var own, pool := Own(sh, Start(req), outside), PoolFor(req, vol);
            && own.1.pc == Finished(Created(vol.volID, CreateReported(req.required)))
            && own.0.pools == if pool in sh.pools then sh.pools else sh.pools[pool := CreateQuotaGiB(req.required)]
  {
    hide Own, Step, Fits, NewVolumeOptions, Admin, RoundOffBytes, RoundUpGiB;
    CreateGetsLock(sh, req, file, outside);
    CreateOnceAccepted(sh.(keys := sh.keys + {file}, locks := sh.locks + {req.name}), req,
                       Credentials(User(req), file), [DeleteKey(file), ReleaseLock(req.name)], outside[4..]);
  }

  /**
   * A create makes its pool with the rounded quota unless it is there, changes nothing else, and answers the
   * same either way.
   */
  lemma CreateCall(sh: Shared, req: Request, file: FileName)
    requires Accepted(req) && Free(sh, req, file)
    ensures var vol := Wanted(req);
            Call(sh, req, file)
            == (if PoolFor(req, vol) in sh.pools then sh
                else sh.(pools := sh.pools[PoolFor(req, vol) := CreateQuotaGiB(req.required)]),
                Finished(Created(vol.volID, CreateReported(req.required))))
  {
    hide Own, RoundOffBytes, RoundUpGiB, Admin, NewVolumeOptions;
    var outside := seq(10, _ => Calm(file));
    HandlerGivesBack(sh, req, outside);
    CreateByItself(sh, req, file, outside);
  }

  /** A delete takes away its pool, there or not, and nothing else. */
  lemma DeleteCall(sh: Shared, req: Request, file: FileName, vol: VolumeOptions)
    requires req.DeleteVolume? && req.capable && req.volumeId != [] && Free(sh, req, file)
    requires NewVolOptionsFromVolID(req.volumeId, None) == VolumeId.Read(vol)
    ensures ADMIN_NAME in req.secrets
    ensures Call(sh, req, file) == (sh.(pools := sh.pools - {PoolFor(req, vol)}), Finished(Deleted))
  {
    hide Own, NewVolOptionsFromVolID, Admin;
    AdminUser(req, file);
    var outside := seq(10, _ => Calm(file));
    HandlerGivesBack(sh, req, outside);
    DeleteByItself(sh, req, Credentials(User(req), file), vol, Calm(file), outside);
  }

  /** Repeating a create, with any size, changes nothing more and answers with the same volume ID. */
  lemma CreateTwice(sh: Shared, first: Request, second: Request, file: FileName, file': FileName)
    requires Accepted(first) && Free(sh, first, file) && Accepted(second) && Free(sh, second, file')
    requires first.name == second.name && User(first) == User(second)
    requires Lookup(first.parameters, CONFIG_BASE_PATH) == Lookup(second.parameters, CONFIG_BASE_PATH)
    ensures var once := Call(sh, first, file).0;
            Call(once, second, file') == (once, Finished(Created(Wanted(first).volID, CreateReported(second.required))))
  {
    hide Call, RoundOffBytes, RoundUpGiB, VolumeId.Compose, Admin;
    CreateCall(sh, first, file);
    CreateCall(Call(sh, first, file).0, second, file');
  }

  /** Repeating a delete succeeds and changes nothing more. */
  lemma DeleteTwice(sh: Shared, req: Request, file: FileName, file': FileName, vol: VolumeOptions)
    requires req.DeleteVolume? && req.capable && req.volumeId != [] && Free(sh, req, file) && Free(sh, req, file')
    requires NewVolOptionsFromVolID(req.volumeId, None) == VolumeId.Read(vol)
    ensures var once := Call(sh, req, file).0; Call(once, req, file') == (once, Finished(Deleted))
  {
    hide Call, NewVolOptionsFromVolID, Admin;
    DeleteCall(sh, req, file, vol);
    DeleteCall(Call(sh, req, file).0, req, file', vol);
    assert sh.pools - {PoolFor(req, vol)} - {PoolFor(req, vol)} == sh.pools - {PoolFor(req, vol)};
  }

  /** The ID that a create answers leads a delete or an expand with the same secret to the pool of that create. */
  lemma AnsweredIdLeadsToPool(req: Request, range: Option<int64>)
    requires Accepted(req)
    ensures Wanted(req).volID != []
    ensures NewVolOptionsFromVolID(Wanted(req).volID, range)
         == VolumeId.Read(Wanted(req).(capacityBytes := if range.Some? then range.value else 0))
  {
    hide VolumeId.Compose, VolumeId.Decode, RoundOffBytes;
    CreatedIdLeadsBack(req.parameters, req.name, User(req), req.required, range);
    VolumeId.ComposeIsFrame(VolumeId.Identifier(Wanted(req).baseConfigURL, User(req), Wanted(req).volName));
  }

  /** Deleting by the answered ID undoes a create of a pool that was absent. */
  lemma DeleteUndoesCreate(sh: Shared, create: Request, delete: Request, file: FileName, file': FileName)
    requires Accepted(create) && Free(sh, create, file) && PoolFor(create, Wanted(create)) !in sh.pools
    requires delete.DeleteVolume? && delete.capable && Free(sh, delete, file')
    requires delete.volumeId == Wanted(create).volID && delete.secrets == create.secrets
    ensures Call(Call(sh, create, file).0, delete, file') == (sh, Finished(Deleted))
  {
    hide Call, Wanted, RoundOffBytes, RoundUpGiB, Admin, NewVolumeOptions, NewVolOptionsFromVolID;
    CreateCall(sh, create, file);
    AnsweredIdLeadsToPool(create, None);
    var made := Call(sh, create, file).0;
    DeleteCall(made, delete, file', Wanted(create).(capacityBytes := 0));
    assert made.pools - {PoolFor(create, Wanted(create))} == sh.pools;
  }

  /** An expand of a pool that is there sets its quota, changes nothing else, and reports the rounded size. */
  lemma ExpandCall(sh: Shared, req: Request, file: FileName, vol: VolumeOptions)
    requires req.ExpandVolume? && req.volumeId != [] && Free(sh, req, file)
    requires NewVolOptionsFromVolID(req.volumeId, req.range) == VolumeId.Read(vol)
    ensures ADMIN_NAME in req.secrets
    ensures Call(sh, req, file)
         == if PoolFor(req, vol) in sh.pools
            then (sh.(pools := sh.pools[PoolFor(req, vol) := ResizeQuotaGiB(vol.capacityBytes)]),
                  Finished(Expanded(ResizeReported(vol.capacityBytes))))
            else (sh, Finished(Failed(Internal)))
  {
    hide Own, RoundOffBytes, RoundUpGiB, Admin, CreateStep, DeleteStep, NewVolOptionsFromVolID;
    AdminUser(req, file);
    var cr, outside := Credentials(User(req), file), seq(10, _ => Calm(file));
    HandlerGivesBack(sh, req, outside);
    var key, lock := DeleteKey(file), ReleaseLock(req.volumeId);
    assert outside[0..] == outside && [] + [lock] == [lock] && [lock] + [key] == [lock, key];
    OwnStep(sh, Start(req), outside, 0);
    OwnStep(sh, ThreadState(req, ExpandLock, []), outside, 1);
    var sh1 := sh.(locks := sh.locks + {req.volumeId});
    OwnStep(sh1, ThreadState(req, ExpandCredentials, [lock]), outside, 2);
    var sh2 := sh1.(keys := sh.keys + {file});
    OwnStep(sh2, ThreadState(req, ExpandDecode(cr), [lock, key]), outside, 3);
    ExpandCommands(sh2, req, cr, vol, [lock, key], outside[4..]);
  }

  lemma ExpandCommands(sh: Shared, req: Request, cr: Credentials, vol: VolumeOptions, defers: seq<Deferred>,
                       outside: seq<Choice>)
    requires req.ExpandVolume? && |defers| == 2 && |outside| == 6 && !outside[0].commandFails
    ensures var own, pool := Own(sh, ThreadState(req, ExpandCommand(cr, vol), defers), outside), PoolOf(cr, vol);
            if pool in sh.pools
            then own.1.pc == Finished(Expanded(ResizeReported(vol.capacityBytes)))
                 && own.0.pools == sh.pools[pool := ResizeQuotaGiB(vol.capacityBytes)]
            else own.1.pc == Finished(Failed(Internal)) && own.0.pools == sh.pools
  {
    hide Own, RoundOffBytes, RoundUpGiB, CreateStep, DeleteStep;
    var pool := PoolOf(cr, vol);
    assert outside[0..] == outside;
    OwnStep(sh, ThreadState(req, ExpandCommand(cr, vol), defers), outside, 0);
    if pool in sh.pools {
      var resp := Expanded(ResizeReported(vol.capacityBytes));
      var changed := sh.(pools := sh.pools[pool := ResizeQuotaGiB(vol.capacityBytes)]);
      OwnReturns(changed, ThreadState(req, Return(resp), defers), outside[1..]);
    } else {
      OwnReturns(sh, ThreadState(req, Return(Failed(Internal)), defers), outside[1..]);
    }
  }

  /** Expanding a created volume by its answered ID gives the pool the new quota, whatever quota the create gave it. */
  lemma ExpandAfterCreate(sh: Shared, create: Request, expand: Request, file: FileName, file': FileName, size: int64)
    requires Accepted(create) && Free(sh, create, file)
    requires expand.ExpandVolume? && Free(sh, expand, file') && expand.range == Some(size)
    requires expand.volumeId == Wanted(create).volID && expand.secrets == create.secrets
    ensures Call(Call(sh, create, file).0, expand, file')
         == (sh.(pools := sh.pools[PoolFor(create, Wanted(create)) := ResizeQuotaGiB(size)]),
             Finished(Expanded(ResizeReported(size))))
  {
    hide Call, Wanted, RoundOffBytes, RoundUpGiB, Admin, NewVolumeOptions, NewVolOptionsFromVolID;
    CreateCall(sh, create, file);
    AnsweredIdLeadsToPool(create, Some(size));
    var made, pool := Call(sh, create, file).0, PoolFor(create, Wanted(create));
    ExpandCall(made, expand, file', Wanted(create).(capacityBytes := size));
    assert made.pools[pool := ResizeQuotaGiB(size)] == sh.pools[pool := ResizeQuotaGiB(size)];
  }
}
