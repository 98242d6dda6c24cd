/** From placements to events (src/exo/master/placement.py): the events that turn the
    current instances into the wanted ones, as a patch of the replicated state.
    Dictionaries are maps; where the order of a dictionary shows in the events, the
    order is a parameter. */
module Placement {
  import opened Common
  import opened Reducer

  /** The keys of a dictionary, in its order. */
  ghost predicate Lists<K(!new), V>(keys: seq<K>, m: map<K, V>)
  {
    forall k :: k in keys <==> k in m
  }

  predicate Live(t: Task, id: InstanceId)
  {
    t.instance == id && (t.status == Pending || t.status == Running)
  }

  function Cancel(t: Task): Task
  {
    t.(status := Cancelled, errorType := None, errorMessage := None)
  }

  // ----- the events, by the order of the dictionaries -----

  ghost function CreatedEvents(current: Instances, target: Instances, keys: seq<InstanceId>): seq<Body>
    requires forall k :: k in keys ==> k in target
  {
    if keys == [] then []
    else
      var n := |keys| - 1;
      var before := CreatedEvents(current, target, keys[..n]);
      if keys[n] in current then before else before + [InstanceCreated(target[keys[n]])]
  }

  ghost function CancelEvents(id: InstanceId, tasks: Tasks, keys: seq<TaskId>): seq<Body>
    requires forall k :: k in keys ==> k in tasks
  {
    if keys == [] then []
    else
      var n := |keys| - 1;
      var before := CancelEvents(id, tasks, keys[..n]);
      if Live(tasks[keys[n]], id) then before + [TaskStatusUpdated(tasks[keys[n]].id, Cancelled)] else before
  }

  ghost function DeletedEvents(target: Instances, keys: seq<InstanceId>, tasks: Tasks, taskKeys: seq<TaskId>): seq<Body>
    requires forall k :: k in taskKeys ==> k in tasks
  {
    if keys == [] then []
    else
      var n := |keys| - 1;
      var before := DeletedEvents(target, keys[..n], tasks, taskKeys);
      if keys[n] in target then before
      else before + (CancelEvents(keys[n], tasks, taskKeys) + [InstanceDeleted(keys[n])])
  }

  ghost function TransitionEvents(
    current: Instances, currentKeys: seq<InstanceId>, target: Instances, targetKeys: seq<InstanceId>,
    tasks: Tasks, taskKeys: seq<TaskId>): seq<Body>
    requires Lists(targetKeys, target) && Lists(taskKeys, tasks)
  {
    CreatedEvents(current, target, targetKeys) + DeletedEvents(target, currentKeys, tasks, taskKeys)
  }

  method GetTransitionEvents(
    current: Instances, currentKeys: seq<InstanceId>, target: Instances, targetKeys: seq<InstanceId>,
    tasks: Tasks, taskKeys: seq<TaskId>) returns (events: seq<Body>)
    requires Lists(currentKeys, current) && Lists(targetKeys, target) && Lists(taskKeys, tasks)
    ensures events == TransitionEvents(current, currentKeys, target, targetKeys, tasks, taskKeys)
  {
    events := [];
    for i := 0 to |targetKeys|
      invariant events == CreatedEvents(current, target, targetKeys[..i])
    {
      assert targetKeys[..i + 1][..i] == targetKeys[..i];
      if targetKeys[i] !in current {
        events := events + [InstanceCreated(target[targetKeys[i]])];
      }
    }
    ghost var created := events;
    assert targetKeys[..|targetKeys|] == targetKeys;
    for i := 0 to |currentKeys|
      invariant events == created + DeletedEvents(target, currentKeys[..i], tasks, taskKeys)
    {
      assert currentKeys[..i + 1][..i] == currentKeys[..i];
      if currentKeys[i] !in target {
        var cancels := AddCancels(events, currentKeys[i], tasks, taskKeys);
        events := cancels + [InstanceDeleted(currentKeys[i])];
      }
    }
    assert currentKeys[..|currentKeys|] == currentKeys;
  }

  method AddCancels(before: seq<Body>, id: InstanceId, tasks: Tasks, keys: seq<TaskId>) returns (events: seq<Body>)
    requires Lists(keys, tasks)
    ensures events == before + CancelEvents(id, tasks, keys)
  {
    events := before;
    for i := 0 to |keys|
      invariant events == before + CancelEvents(id, tasks, keys[..i])
    {
      assert keys[..i + 1][..i] == keys[..i];
      var task := tasks[keys[i]];
      if Live(task, id) {
        events := events + [TaskStatusUpdated(task.id, Cancelled)];
      }
    }
    assert keys[..|keys|] == keys;
  }

  // ----- their fold -----

  type Step = (Body, Work) -> Work

  ghost function ApplyAll(step: Step, bs: seq<Body>, w: Work): Work
  {
    if bs == [] then w else step(bs[|bs| - 1], ApplyAll(step, bs[..|bs| - 1], w))
  }

  /** What the proofs below use of the reducer. */
  ghost predicate Handles(step: Step)
  {
    && (forall i: Instance, w: Work :: step(InstanceCreated(i), w) == w.(instances := w.instances[i.id := i]))
    && (forall id: TaskId, w: Work :: id in w.tasks ==>
          step(TaskStatusUpdated(id, Cancelled), w) == w.(tasks := w.tasks[id := Cancel(w.tasks[id])]))
    && (forall id: InstanceId, w: Work :: step(InstanceDeleted(id), w) == WithoutInstance(id, w))
  }

  lemma {:induction false} ReducerHandles()
    ensures Handles(ApplyToWork)
  {
    forall i: Instance, w: Work ensures ApplyToWork(InstanceCreated(i), w) == w.(instances := w.instances[i.id := i]) {
    }
    forall id: TaskId, w: Work | id in w.tasks
      ensures ApplyToWork(TaskStatusUpdated(id, Cancelled), w) == w.(tasks := w.tasks[id := Cancel(w.tasks[id])])
    {
    }
    forall id: InstanceId, w: Work ensures ApplyToWork(InstanceDeleted(id), w) == WithoutInstance(id, w) {
    }
  }

  lemma {:induction false} ApplyConcat(step: Step, a: seq<Body>, b: seq<Body>, w: Work)
    ensures ApplyAll(step, a + b, w) == ApplyAll(step, b, ApplyAll(step, a, w))
  {
    if b == [] {
      assert a + b == a;
    } else {
      ApplyConcat(step, a, b[..|b| - 1], w);
      assert (a + b)[..|a + b| - 1] == a + b[..|b| - 1];
    }
  }

  lemma {:induction false} ApplySnoc(step: Step, bs: seq<Body>, b: Body, w: Work)
    ensures ApplyAll(step, bs + [b], w) == step(b, ApplyAll(step, bs, w))
  {
    assert (bs + [b])[..|bs|] == bs;
  }

  ghost function New(current: Instances, target: Instances, keys: seq<InstanceId>): Instances
    requires forall k :: k in keys ==> k in target
  {
    map k | k in keys && k !in current :: target[k]
  }

  lemma {:induction false} NewOneMore(current: Instances, target: Instances, keys: seq<InstanceId>, m: Instances)
    requires (forall k :: k in keys ==> k in target) && keys != []
    ensures forall k :: k in keys[..|keys| - 1] ==> k in target
    ensures var last := keys[|keys| - 1];
            m + New(current, target, keys) ==
              if last in current then m + New(current, target, keys[..|keys| - 1])
              else (m + New(current, target, keys[..|keys| - 1]))[last := target[last]]
  {
    var n := |keys| - 1;
    assert keys == keys[..n] + [keys[n]];
  }

  lemma {:induction false} CreatedEventsLast(current: Instances, target: Instances, keys: seq<InstanceId>)
    requires (forall k :: k in keys ==> k in target) && keys != []
    ensures forall k :: k in keys[..|keys| - 1] ==> k in target
    ensures var last, before := keys[|keys| - 1], CreatedEvents(current, target, keys[..|keys| - 1]);
            last in target
            && CreatedEvents(current, target, keys)
               == if last in current then before else before + [InstanceCreated(target[last])]
  {
    assert keys[|keys| - 1] in keys;
  }

  lemma {:induction false} FoldCreated(
    step: Step, current: Instances, target: Instances, keys: seq<InstanceId>, w: Work)
    requires Handles(step) && (forall k :: k in keys ==> k in target) && InstancesKeyed(target)
    ensures ApplyAll(step, CreatedEvents(current, target, keys), w)
            == w.(instances := w.instances + New(current, target, keys))
  {
    if keys == [] {
      assert w.instances + New(current, target, keys) == w.instances;
    } else {
      var front, last := keys[..|keys| - 1], keys[|keys| - 1];
      CreatedEventsLast(current, target, keys);
      NewOneMore(current, target, keys, w.instances);
      FoldCreated(step, current, target, front, w);
      if last !in current {
        var before := w.(instances := w.instances + New(current, target, front));
        ApplySnoc(step, CreatedEvents(current, target, front), InstanceCreated(target[last]), w);
        assert step(InstanceCreated(target[last]), before)
               == before.(instances := before.instances[last := target[last]]);
      }
    }
  }

  /** Tasks `t` with `dead(t)` cancelled, the others as they are. */
  ghost function Cancelling(tasks: Tasks, dead: set<TaskId>): Tasks
  {
    map t | t in tasks :: if t in dead then Cancel(tasks[t]) else tasks[t]
  }

  ghost function LiveOn(id: InstanceId, tasks: Tasks, keys: seq<TaskId>): set<TaskId>
    requires forall k :: k in keys ==> k in tasks
  {
    set t | t in keys && Live(tasks[t], id)
  }

  lemma {:induction false} LiveOneMore(id: InstanceId, tasks: Tasks, keys: seq<TaskId>, m: Tasks)
    requires (forall k :: k in keys ==> k in tasks) && m.Keys == tasks.Keys && keys != []
    ensures forall k :: k in keys[..|keys| - 1] ==> k in tasks
    ensures var last := keys[|keys| - 1];
            Cancelling(m, LiveOn(id, tasks, keys)) ==
              if Live(tasks[last], id)
              then Cancelling(m, LiveOn(id, tasks, keys[..|keys| - 1]))[last := Cancel(m[last])]
              else Cancelling(m, LiveOn(id, tasks, keys[..|keys| - 1]))
  {
    var n := |keys| - 1;
    assert keys == keys[..n] + [keys[n]];
    assert LiveOn(id, tasks, keys) == LiveOn(id, tasks, keys[..n]) + if Live(tasks[keys[n]], id) then {keys[n]} else {};
  }

  lemma {:induction false} FoldCancel(step: Step, id: InstanceId, tasks: Tasks, keys: seq<TaskId>, w: Work)
    requires Handles(step) && (forall k :: k in keys ==> k in tasks) && TasksKeyed(tasks) && w.tasks.Keys == tasks.Keys
    ensures ApplyAll(step, CancelEvents(id, tasks, keys), w)
            == w.(tasks := Cancelling(w.tasks, LiveOn(id, tasks, keys)))
  {
    if keys == [] {
      assert Cancelling(w.tasks, LiveOn(id, tasks, keys)) == w.tasks;
    } else {
      var last := keys[|keys| - 1];
      LiveOneMore(id, tasks, keys, w.tasks);
      FoldCancel(step, id, tasks, keys[..|keys| - 1], w);
      if Live(tasks[last], id) {
        ApplySnoc(step, CancelEvents(id, tasks, keys[..|keys| - 1]), TaskStatusUpdated(last, Cancelled), w);
      }
    }
  }

  // ----- links -----

  ghost function Without(ids: seq<InstanceId>, gone: set<InstanceId>): seq<InstanceId>
  {
    if ids == [] then [] else (if ids[0] in gone then [] else [ids[0]]) + Without(ids[1..], gone)
  }

  lemma {:induction false} WithoutMembers(ids: seq<InstanceId>, gone: set<InstanceId>)
    ensures forall i :: i in Without(ids, gone) <==> i in ids && i !in gone
  {
    if ids != [] {
      WithoutMembers(ids[1..], gone);
      assert ids == [ids[0]] + ids[1..];
    }
  }

  lemma {:induction false} RemoveWithout(ids: seq<InstanceId>, gone: set<InstanceId>, id: InstanceId)
    ensures Remove(Without(ids, gone), id) == Without(ids, gone + {id})
  {
    if ids != [] {
      RemoveWithout(ids[1..], gone, id);
      var rest := Without(ids[1..], gone);
      if ids[0] in gone {
        assert [] + rest == rest;
      } else {
        assert ([ids[0]] + rest)[1..] == rest;
      }
    }
  }

  lemma {:induction false} WithoutNone(ids: seq<InstanceId>)
    ensures Without(ids, {}) == ids
  {
    if ids != [] {
      WithoutNone(ids[1..]);
    }
  }

  ghost function CutLink(link: Link, gone: set<InstanceId>): Link
  {
    link.(prefill := Without(link.prefill, gone), decode := Without(link.decode, gone))
  }

  /** Removing instances takes them out of every link, and removes each link that has
      then nothing on one side; with nothing removed, links are left alone. */
  ghost function LinksAfter(links: map<LinkId, Link>, gone: set<InstanceId>): map<LinkId, Link>
  {
    if gone == {} then links
    else map l | l in links && CutLink(links[l], gone).prefill != [] && CutLink(links[l], gone).decode != []
      :: CutLink(links[l], gone)
  }

  lemma {:induction false} CutLinkOneMore(link: Link, gone: set<InstanceId>, id: InstanceId)
    ensures Remove(CutLink(link, gone).prefill, id) == CutLink(link, gone + {id}).prefill
    ensures Remove(CutLink(link, gone).decode, id) == CutLink(link, gone + {id}).decode
    ensures CutLink(link, {}) == link
  {
    RemoveWithout(link.prefill, gone, id);
    RemoveWithout(link.decode, gone, id);
    WithoutNone(link.prefill);
    WithoutNone(link.decode);
  }

  lemma {:induction false} LinksAfterOneMore(links: map<LinkId, Link>, gone: set<InstanceId>, id: InstanceId)
    ensures LinksWithout(LinksAfter(links, gone), id) == LinksAfter(links, gone + {id})
  {
    forall l | l in links
      ensures Remove(CutLink(links[l], gone).prefill, id) == CutLink(links[l], gone + {id}).prefill
      ensures Remove(CutLink(links[l], gone).decode, id) == CutLink(links[l], gone + {id}).decode
      ensures CutLink(links[l], {}) == links[l]
    {
      CutLinkOneMore(links[l], gone, id);
    }
  }

  // ----- deletions -----

  ghost function Gone(keys: seq<InstanceId>, target: Instances): set<InstanceId>
  {
    set k | k in keys && k !in target
  }

  ghost function LiveOnAny(gone: set<InstanceId>, tasks: Tasks): set<TaskId>
  {
    set t | t in tasks && tasks[t].instance in gone && Live(tasks[t], tasks[t].instance)
  }

  /** The work with some instances removed: their live tasks cancelled, links cut. */
  ghost function Removing(gone: set<InstanceId>, tasks: Tasks, w: Work): Work
  {
    w.(instances := w.instances - gone,
       tasks := Cancelling(w.tasks, LiveOnAny(gone, tasks)),
       links := LinksAfter(w.links, gone))
  }

  lemma {:induction false} CancelOneMore(
    id: InstanceId, gone: set<InstanceId>, tasks: Tasks, keys: seq<TaskId>, was: Tasks)
    requires Lists(keys, tasks)
    ensures Cancelling(Cancelling(was, LiveOnAny(gone, tasks)), LiveOn(id, tasks, keys))
            == Cancelling(was, LiveOnAny(gone + {id}, tasks))
  {
    assert LiveOnAny(gone + {id}, tasks) == LiveOnAny(gone, tasks) + LiveOn(id, tasks, keys);
  }

  lemma {:induction false} RemovingOneMore(
    id: InstanceId, gone: set<InstanceId>, tasks: Tasks, taskKeys: seq<TaskId>, w: Work)
    requires Lists(taskKeys, tasks)
    ensures var v := Removing(gone, tasks, w);
            WithoutInstance(id, v.(tasks := Cancelling(v.tasks, LiveOn(id, tasks, taskKeys))))
            == Removing(gone + {id}, tasks, w)
  {
    CancelOneMore(id, gone, tasks, taskKeys, w.tasks);
    LinksAfterOneMore(w.links, gone, id);
    assert w.instances - gone - {id} == w.instances - (gone + {id});
  }

  lemma {:induction false} RemoveOne(
    step: Step, id: InstanceId, gone: set<InstanceId>, tasks: Tasks, taskKeys: seq<TaskId>, w: Work)
    requires Handles(step) && Lists(taskKeys, tasks) && TasksKeyed(tasks) && w.tasks.Keys == tasks.Keys
    ensures ApplyAll(step, CancelEvents(id, tasks, taskKeys) + [InstanceDeleted(id)], Removing(gone, tasks, w))
            == Removing(gone + {id}, tasks, w)
  {
    var v := Removing(gone, tasks, w);
    var cancelled := v.(tasks := Cancelling(v.tasks, LiveOn(id, tasks, taskKeys)));
    ApplySnoc(step, CancelEvents(id, tasks, taskKeys), InstanceDeleted(id), v);
    FoldCancel(step, id, tasks, taskKeys, v);
    assert step(InstanceDeleted(id), cancelled) == WithoutInstance(id, cancelled);
    RemovingOneMore(id, gone, tasks, taskKeys, w);
  }

  lemma {:induction false} GoneOneMore(keys: seq<InstanceId>, target: Instances)
    requires keys != []
    ensures Gone(keys, target)
            == Gone(keys[..|keys| - 1], target) + if keys[|keys| - 1] in target then {} else {keys[|keys| - 1]}
  {
    assert keys == keys[..|keys| - 1] + [keys[|keys| - 1]];
  }

  lemma {:induction false} RemoveNone(tasks: Tasks, w: Work)
    ensures Removing({}, tasks, w) == w
  {
    assert w.instances - {} == w.instances;
    assert Cancelling(w.tasks, LiveOnAny({}, tasks)) == w.tasks;
  }

  lemma {:induction false} FoldDeleted(
    step: Step, target: Instances, keys: seq<InstanceId>, tasks: Tasks, taskKeys: seq<TaskId>, w: Work)
    requires Handles(step) && Lists(taskKeys, tasks) && TasksKeyed(tasks) && w.tasks.Keys == tasks.Keys
    ensures ApplyAll(step, DeletedEvents(target, keys, tasks, taskKeys), w) == Removing(Gone(keys, target), tasks, w)
  {
    if keys == [] {
      assert Gone(keys, target) == {};
      RemoveNone(tasks, w);
    } else {
      var before, last := keys[..|keys| - 1], keys[|keys| - 1];
      GoneOneMore(keys, target);
      FoldDeleted(step, target, before, tasks, taskKeys, w);
      if last in target {
        assert Gone(keys, target) == Gone(before, target);
      } else {
        ApplyConcat(step, DeletedEvents(target, before, tasks, taskKeys),
                    CancelEvents(last, tasks, taskKeys) + [InstanceDeleted(last)], w);
        RemoveOne(step, last, Gone(before, target), tasks, taskKeys, w);
      }
    }
  }

  // ----- the patch -----

  /** Current and target hold the same instance under a common id. */
  ghost predicate AgreeOnCommon(current: Instances, target: Instances)
  {
    forall k :: k in current && k in target ==> current[k] == target[k]
  }

  /** `after` is `before` with its instances replaced by `target` and nothing left of
      the removed ones: tasks running there are cancelled, all others untouched, links
      keep their other members and go when a side is empty, everything else stays. */
  ghost predicate Patched(before: Work, target: Instances, after: Work)
  {
    var gone := before.instances.Keys - target.Keys;
    && after.instances == target
    && after.tasks.Keys == before.tasks.Keys
    && (forall t :: t in before.tasks ==>
          after.tasks[t] == if before.tasks[t].instance in gone && before.tasks[t].status in {Pending, Running}
                            then Cancel(before.tasks[t]) else before.tasks[t])
    && after.links == LinksAfter(before.links, gone)
    && after == before.(instances := after.instances, tasks := after.tasks, links := after.links)
  }

  /** Folding the reducer over the transition events gives the patched state exactly
      when current and target agree on the instances they share. */
  lemma {:induction false} TransitionIsPatch(
    w: Work, currentKeys: seq<InstanceId>, target: Instances, targetKeys: seq<InstanceId>, taskKeys: seq<TaskId>)
    requires Lists(currentKeys, w.instances) && Lists(targetKeys, target) && Lists(taskKeys, w.tasks)
    requires InstancesKeyed(target) && TasksKeyed(w.tasks)
    ensures var events := TransitionEvents(w.instances, currentKeys, target, targetKeys, w.tasks, taskKeys);
            Patched(w, target, ApplyAll(ApplyToWork, events, w)) <==> AgreeOnCommon(w.instances, target)
  {
    ReducerHandles();
    StepIsPatch(ApplyToWork, w, currentKeys, target, targetKeys, taskKeys);
  }

  lemma {:induction false} StepIsPatch(
    step: Step, w: Work, currentKeys: seq<InstanceId>, target: Instances, targetKeys: seq<InstanceId>,
    taskKeys: seq<TaskId>)
    requires Handles(step) && Lists(currentKeys, w.instances) && Lists(targetKeys, target) && Lists(taskKeys, w.tasks)
    requires InstancesKeyed(target) && TasksKeyed(w.tasks)
    ensures var events := TransitionEvents(w.instances, currentKeys, target, targetKeys, w.tasks, taskKeys);
            Patched(w, target, ApplyAll(step, events, w)) <==> AgreeOnCommon(w.instances, target)
  {
    var current := w.instances;
    var created := w.(instances := current + New(current, target, targetKeys));
    ApplyConcat(step, CreatedEvents(current, target, targetKeys),
                DeletedEvents(target, currentKeys, w.tasks, taskKeys), w);
    FoldCreated(step, current, target, targetKeys, w);
    FoldDeleted(step, target, currentKeys, w.tasks, taskKeys, created);
    RemovedIsPatch(w, currentKeys, target, targetKeys);
  }

  lemma {:induction false} RemovedIsPatch(
    w: Work, currentKeys: seq<InstanceId>, target: Instances, targetKeys: seq<InstanceId>)
    requires Lists(currentKeys, w.instances) && Lists(targetKeys, target)
    ensures var created := w.(instances := w.instances + New(w.instances, target, targetKeys));
            Patched(w, target, Removing(Gone(currentKeys, target), w.tasks, created))
            <==> AgreeOnCommon(w.instances, target)
  {
    var current := w.instances;
    var created := w.(instances := current + New(current, target, targetKeys));
    var after := Removing(Gone(currentKeys, target), w.tasks, created);
    assert Gone(currentKeys, target) == current.Keys - target.Keys;
    assert after.instances.Keys == target.Keys;
    if AgreeOnCommon(current, target) {
      assert after.instances == target;
    } else {
      var k :| k in current && k in target && current[k] != target[k];
      assert after.instances[k] == current[k];
    }
  }

  /** What a patched state no longer holds. */
  lemma {:induction false} PatchLeavesNothingBehind(before: Work, target: Instances, after: Work)
    requires Patched(before, target, after)
    ensures forall t, id :: t in after.tasks && id in before.instances && id !in target ==> !Live(after.tasks[t], id)
    ensures forall l, id :: l in after.links && id in before.instances && id !in target ==>
              id !in after.links[l].prefill && id !in after.links[l].decode
  {
    var gone := before.instances.Keys - target.Keys;
    assert forall id :: id in before.instances && id !in target ==> id in gone;
    forall l | l in before.links
      ensures forall i :: i in Without(before.links[l].prefill, gone) ==> i !in gone
      ensures forall i :: i in Without(before.links[l].decode, gone) ==> i !in gone
    {
      WithoutMembers(before.links[l].prefill, gone);
      WithoutMembers(before.links[l].decode, gone);
    }
  }

  // ----- the commands -----

  method DeleteInstance(id: InstanceId, current: Instances) returns (r: Result<Instances>)
    ensures r.Ok? <==> id in current
    ensures r.Ok? ==> id !in r.value && r.value.Keys + {id} == current.Keys && AgreeOnCommon(current, r.value)
    ensures r.Ok? && InstancesKeyed(current) ==> InstancesKeyed(r.value)
  {
    var target := current;
    if id in target {
      target := target - {id};
      return Ok(target);
    }
    return ValueError;
  }

  /** `add_instance_to_placements`, and the last step of `place_instance`. */
  function AddInstance(instance: Instance, current: Instances): (target: Instances)
    ensures instance.id in target && target[instance.id] == instance && target.Keys == current.Keys + {instance.id}
    ensures AgreeOnCommon(current, target) <==> (instance.id !in current || current[instance.id] == instance)
    ensures InstancesKeyed(current) ==> InstancesKeyed(target)
  {
    current[instance.id := instance]
  }

  /** A whole `DeleteInstance` command: the reducer ends with exactly that instance gone,
      every live task and every link end that named it with it, and all else as it was. */
  lemma {:induction false} DeletionIsComplete(
    w: Work, id: InstanceId, currentKeys: seq<InstanceId>, targetKeys: seq<InstanceId>, taskKeys: seq<TaskId>)
    requires id in w.instances && InstancesKeyed(w.instances) && TasksKeyed(w.tasks)
    requires Lists(currentKeys, w.instances) && Lists(targetKeys, w.instances - {id}) && Lists(taskKeys, w.tasks)
    ensures var target := w.instances - {id};
            var events := TransitionEvents(w.instances, currentKeys, target, targetKeys, w.tasks, taskKeys);
            var after := ApplyAll(ApplyToWork, events, w);
            && Patched(w, target, after)
            && (forall t :: t in after.tasks ==> !Live(after.tasks[t], id))
            && (forall l :: l in after.links ==> id !in after.links[l].prefill && id !in after.links[l].decode)
  {
    var target := w.instances - {id};
    var events := TransitionEvents(w.instances, currentKeys, target, targetKeys, w.tasks, taskKeys);
    var after := ApplyAll(ApplyToWork, events, w);
    TransitionIsPatch(w, currentKeys, target, targetKeys, taskKeys);
    PatchLeavesNothingBehind(w, target, after);
  }

  /** A whole create command: the reducer ends with exactly that instance added and
      everything else as it was, exactly when its id is new or already holds it. */
  lemma {:induction false} CreationIsComplete(
    w: Work, instance: Instance, currentKeys: seq<InstanceId>, targetKeys: seq<InstanceId>, taskKeys: seq<TaskId>)
    requires InstancesKeyed(w.instances) && TasksKeyed(w.tasks)
    requires Lists(currentKeys, w.instances) && Lists(targetKeys, AddInstance(instance, w.instances))
    requires Lists(taskKeys, w.tasks)
    ensures var target := AddInstance(instance, w.instances);
            var events := TransitionEvents(w.instances, currentKeys, target, targetKeys, w.tasks, taskKeys);
            ApplyAll(ApplyToWork, events, w) == w.(instances := w.instances[instance.id := instance])
            <==> (instance.id !in w.instances || w.instances[instance.id] == instance)
  {
    var target := AddInstance(instance, w.instances);
    var events := TransitionEvents(w.instances, currentKeys, target, targetKeys, w.tasks, taskKeys);
    var after := ApplyAll(ApplyToWork, events, w);
    TransitionIsPatch(w, currentKeys, target, targetKeys, taskKeys);
    NothingGone(w, target);
    if AgreeOnCommon(w.instances, target) {
      assert after.tasks == w.tasks;
    } else {
      assert !Patched(w, target, after);
    }
  }

  lemma {:induction false} NothingGone(w: Work, target: Instances)
    requires w.instances.Keys <= target.Keys
    ensures Patched(w, target, w.(instances := target))
  {
    assert w.instances.Keys - target.Keys == {};
  }

  /** Re-creating an id with other contents changes nothing. */
  lemma {:induction false} RecreationIsLost()
    ensures var w := NO_WORK.(instances := map[0 := Instance(0, 1)]);
            var target := AddInstance(Instance(0, 2), w.instances);
            && target == map[0 := Instance(0, 2)]
            && TransitionEvents(w.instances, [0], target, [0], w.tasks, []) == []
            && ApplyAll(ApplyToWork, [], w).instances == map[0 := Instance(0, 1)]
  {
    var w := NO_WORK.(instances := map[0 := Instance(0, 1)]);
    var target := AddInstance(Instance(0, 2), w.instances);
    assert [0][..0] == [];
    assert CreatedEvents(w.instances, target, [0]) == [];
    assert DeletedEvents(target, [0], w.tasks, []) == [];
  }
}
