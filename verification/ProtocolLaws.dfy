/** What the API server and the two writes of the controller leave behind, field by field. */
module ProtocolLaws {
  import opened Plans
  import opened Parameters
  import opened Instances
  import opened Admission
  import opened Controller
  import opened Protocol

  /** The instance that is stored afterwards: none when it is being deleted and has no finalizer
      left, and otherwise `i`. */
  ghost predicate LeftBehind(i: InstanceData, stored: Option<InstanceData>) {
    stored == if i.deleting && i.finalizers == [] then None else Some(i)
  }

  /** A write of the instance goes through exactly when the instance exists, its version is the one
      that was read, and admission stores it; status and deletion stay as they were. */
  lemma {:induction false} PutExactly(w: World, r: Register, sent: InstanceData, version: nat, uuid: UID)
    ensures PutInstance(w, r, sent, version, uuid).Some? <==>
              && r.obj.Some? && version == r.version
              && Updated(w, r.obj.value, sent.(deleting := r.obj.value.deleting), uuid).Stored?
    ensures PutInstance(w, r, sent, version, uuid).Some? ==>
              var before, r' := r.obj.value, PutInstance(w, r, sent, version, uuid).value;
              var admitted := Updated(w, before, sent.(deleting := before.deleting), uuid).instance;
              && r'.version == r.version + 1
              && LeftBehind(before.(spec := admitted.spec, finalizers := admitted.finalizers), r'.obj)
  {
  }

  /** A write of the status leaves spec, finalizers and deletion alone, and asks nobody. */
  lemma {:induction false} PutStatusExactly(r: Register, sent: InstanceData, version: nat)
    ensures PutStatus(r, sent, version).Some? <==> r.obj.Some? && version == r.version
    ensures PutStatus(r, sent, version).Some? ==>
              var before, r' := r.obj.value, PutStatus(r, sent, version).value;
              && r'.version == r.version + 1
              && r'.obj == Some(InstanceData(before.spec, sent.planStatus, sent.readiness, before.finalizers,
                                             before.deleting))
  {
  }

  /** The two writes of `updateInstance`, with nobody writing in between. The first changes spec
      and finalizers and is left out when these are as they were; if it is refused, nothing is
      written at all. The second adds the status, unless the instance has disappeared. */
  lemma {:induction false} TwoWritesExactly(w: World, r: Register, base: InstanceData, next: InstanceData, uuid: UID)
    requires r.obj == Some(base)
    ensures
      var first := AfterSpecWrite(w, r, base, r.version, next, uuid);
      var answer := Updated(w, base, next.(deleting := base.deleting), uuid);
      var moved := next.spec != base.spec || next.finalizers != base.finalizers;
      && (first.None? <==> moved && answer.Refused?)
      && (first.Some? ==>
            var left := if moved
              then base.(spec := answer.instance.spec, finalizers := answer.instance.finalizers) else base;
            var second := PutStatus(first.value, next, if moved then r.version + 1 else r.version);
            && (second.None? <==> moved && left.deleting && left.finalizers == [])
            && (second.None? ==> first.value.obj == None)
            && (second.Some? ==>
                second.value.obj == Some(left.(planStatus := next.planStatus, readiness := next.readiness))))
  {
    PutExactly(w, r, next, r.version, uuid);
    var first := AfterSpecWrite(w, r, base, r.version, next, uuid);
    if first.Some? { PutStatusExactly(first.value, next, first.value.version); }
  }

  /** An admitted instance starts without any status and not being deleted; a second one of the
      same name is refused. */
  lemma {:induction false} CreatesExactly(w: World, s: State, i: InstanceData, cleanup: Option<PlanStatus>, uuid: UID)
    requires CtlOk(w, s.ctl)
    ensures
      var s', r := Next(w, s, Create(i, cleanup, uuid)), Created(w, i, cleanup, uuid);
      && (s.reg.obj.Some? || r.Refused? ==> s' == s)
      && (s.reg.obj.None? && r.Stored? ==>
            && s'.reg.obj == Some(InstanceData(r.instance.spec, map[], "", r.instance.finalizers, false))
            && s'.ctl == s.ctl && s'.log == s.log && s'.finished == s.finished)
  {
  }

  /** Deleting an instance marks it, or removes it at once if it has no finalizer. */
  lemma {:induction false} DeletesExactly(w: World, s: State)
    requires CtlOk(w, s.ctl) && s.reg.obj.Some?
    ensures
      var s' := Next(w, s, Delete);
      && LeftBehind(s.reg.obj.value.(deleting := true), s'.reg.obj) && s' == s.(reg := s'.reg)
  {
  }

  /** The controller takes the cleanup finalizer off when the cleanup plan, if it has a status, is
      COMPLETE; every other finalizer stays, and so does everything else it hands over. */
  lemma {:induction false} FinalizerExactly(w: World, i: InstanceData, x: Inputs)
    requires Reconciled(w, i, x).Writes?
    ensures
      var next, handed := Reconciled(w, i, x).next, NextOf(w, i, x);
      && handed == next.(finalizers := handed.finalizers)
      && (forall f | f != CLEANUP_FINALIZER :: f in handed.finalizers <==> f in next.finalizers)
      && (CLEANUP_FINALIZER in handed.finalizers <==>
          CLEANUP_FINALIZER in next.finalizers && CLEANUP in next.planStatus
          && next.planStatus[CLEANUP].status != Complete)
  {
  }
}
