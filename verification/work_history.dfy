/** What the replicated state says about instances, runners, tasks, links and model cards
    after a run of events (src/exo/shared/apply.py:171-285, 486-500). */
module WorkHistory {
  import opened Common
  import opened Messages
  import opened Reducer
  import opened ReducerInvariants
  import opened ReducerHistory
  import Replication

  /** A component of the work that every event changes as `effect` says ends as it says. */
  lemma {:induction false} WorkFoldsToLast<V>(
    find: CycleFinder, get: Work -> Option<V>, effect: Event<Body> -> Effect<V>, es: seq<Event<Body>>)
    requires get(NO_WORK) == None
    requires forall e: Event<Body>, w: Work :: get(ApplyToWork(e.body, w)) == After(get(w), effect(e))
    ensures get(Replication.Fold(ReducerOf(find), es).work) == Last(es, effect)
  {
    FoldsToLastAlways(ReducerOf(find), (s: State) => get(s.work), effect, es);
  }

  lemma {:induction false} RunnersKept(b: Body, w: Work)
    requires !b.RunnerStatusUpdated?
    ensures var v := ApplyToWork(b, w); v.runners == w.runners && v.prefillPorts == w.prefillPorts
  {
  }

  predicate AboutTasks(b: Body)
  {
    b.TaskCreated? || b.TaskDeleted? || b.TaskFailed? || b.TaskStatusUpdated?
  }

  lemma {:induction false} TasksKept(b: Body, w: Work)
    requires !AboutTasks(b)
    ensures ApplyToWork(b, w).tasks == w.tasks
  {
  }

  /** Created with a value of the field, gone when deleted. */
  function Created<V>(id: TaskId, field: Task -> V, b: Body): Effect<V>
  {
    match b
    case TaskCreated(k, t) => if k == id then Set(field(t)) else Keep
    case TaskDeleted(k) => if k == id then Clear else Keep
    case _ => Keep
  }

  function FieldOf<V>(w: Work, id: TaskId, field: Task -> V): Option<V>
  {
    if id in w.tasks then Some(field(w.tasks[id])) else None
  }

  function InstanceEffect(id: InstanceId, b: Body): Effect<Instance>
  {
    match b
    case InstanceCreated(i) => if i.id == id then Set(i) else Keep
    case InstanceDeleted(j) => if j == id then Clear else Keep
    case _ => Keep
  }

  lemma {:induction false} InstanceStep(b: Body, w: Work, id: InstanceId)
    ensures var v := ApplyToWork(b, w); Get(v.instances, id) == After(Get(w.instances, id), InstanceEffect(id, b))
  {
  }

  /** The instance created last under the id and not deleted since. */
  lemma {:induction false} InstanceHistory(find: CycleFinder, es: seq<Event<Body>>, id: InstanceId)
    ensures var w := Replication.Fold(ReducerOf(find), es).work;
            Get(w.instances, id) == Last(es, (e: Event<Body>) => InstanceEffect(id, e.body))
  {
    var get := (w: Work) => Get(w.instances, id);
    var effect := (e: Event<Body>) => InstanceEffect(id, e.body);
    forall e: Event<Body>, w: Work ensures get(ApplyToWork(e.body, w)) == After(get(w), effect(e)) {
      InstanceStep(e.body, w, id);
    }
    WorkFoldsToLast(find, get, effect, es);
  }

  function RunnerEffect(r: RunnerId, b: Body): Effect<RunnerStatus>
  {
    match b
    case RunnerStatusUpdated(q, status) =>
      if q != r then Keep else if status.RunnerShutdown? then Clear else Set(status)
    case _ => Keep
  }

  lemma {:induction false} RunnerStep(b: Body, w: Work, r: RunnerId)
    ensures var v := ApplyToWork(b, w); Get(v.runners, r) == After(Get(w.runners, r), RunnerEffect(r, b))
  {
    if !b.RunnerStatusUpdated? {
      RunnersKept(b, w);
    }
  }

  /** A runner's last status, unless that is its shutdown. */
  lemma {:induction false} RunnerHistory(find: CycleFinder, es: seq<Event<Body>>, r: RunnerId)
    ensures var w := Replication.Fold(ReducerOf(find), es).work;
            Get(w.runners, r) == Last(es, (e: Event<Body>) => RunnerEffect(r, e.body))
  {
    var get := (w: Work) => Get(w.runners, r);
    var effect := (e: Event<Body>) => RunnerEffect(r, e.body);
    forall e: Event<Body>, w: Work ensures get(ApplyToWork(e.body, w)) == After(get(w), effect(e)) {
      RunnerStep(e.body, w, r);
    }
    WorkFoldsToLast(find, get, effect, es);
  }

  function PortEffect(r: RunnerId, b: Body): Effect<nat>
  {
    match b
    case RunnerStatusUpdated(q, RunnerShutdown) => if q == r then Clear else Keep
    case RunnerStatusUpdated(q, RunnerReady(Some(port))) => if q == r then Set(port) else Keep
    case _ => Keep
  }

  lemma {:induction false} PortStep(b: Body, w: Work, r: RunnerId)
    ensures var v := ApplyToWork(b, w); Get(v.prefillPorts, r) == After(Get(w.prefillPorts, r), PortEffect(r, b))
  {
    if !b.RunnerStatusUpdated? {
      RunnersKept(b, w);
    }
  }

  /** The last prefill port a runner was ready with since its last shutdown. */
  lemma {:induction false} PortHistory(find: CycleFinder, es: seq<Event<Body>>, r: RunnerId)
    ensures var w := Replication.Fold(ReducerOf(find), es).work;
            Get(w.prefillPorts, r) == Last(es, (e: Event<Body>) => PortEffect(r, e.body))
  {
    var get := (w: Work) => Get(w.prefillPorts, r);
    var effect := (e: Event<Body>) => PortEffect(r, e.body);
    forall e: Event<Body>, w: Work ensures get(ApplyToWork(e.body, w)) == After(get(w), effect(e)) {
      PortStep(e.body, w, r);
    }
    WorkFoldsToLast(find, get, effect, es);
  }

  function CardEffect(m: ModelId, b: Body): Effect<nat>
  {
    match b
    case CustomCardAdded(k, card) => if k == m then Set(card) else Keep
    case CustomCardDeleted(k) => if k == m then Clear else Keep
    case _ => Keep
  }

  lemma {:induction false} CardStep(b: Body, w: Work, m: ModelId)
    ensures var v := ApplyToWork(b, w); Get(v.customCards, m) == After(Get(w.customCards, m), CardEffect(m, b))
  {
  }

  /** The card added last for a model and not deleted since. */
  lemma {:induction false} CardHistory(find: CycleFinder, es: seq<Event<Body>>, m: ModelId)
    ensures var w := Replication.Fold(ReducerOf(find), es).work;
            Get(w.customCards, m) == Last(es, (e: Event<Body>) => CardEffect(m, e.body))
  {
    var get := (w: Work) => Get(w.customCards, m);
    var effect := (e: Event<Body>) => CardEffect(m, e.body);
    forall e: Event<Body>, w: Work ensures get(ApplyToWork(e.body, w)) == After(get(w), effect(e)) {
      CardStep(e.body, w, m);
    }
    WorkFoldsToLast(find, get, effect, es);
  }

  function StatusEffect(id: TaskId, b: Body): Effect<TaskStatus>
  {
    match b
    case TaskStatusUpdated(k, status) => if k == id then Replace(status) else Keep
    case _ => Created(id, (t: Task) => t.status, b)
  }

  lemma {:induction false} StatusStep(b: Body, w: Work, id: TaskId)
    ensures var v := ApplyToWork(b, w);
            FieldOf(v, id, (t: Task) => t.status)
            == After(FieldOf(w, id, (t: Task) => t.status), StatusEffect(id, b))
  {
    if !AboutTasks(b) {
      TasksKept(b, w);
    }
  }

  /** A task's last status since its creation, until it is deleted. */
  lemma {:induction false} StatusHistory(find: CycleFinder, es: seq<Event<Body>>, id: TaskId)
    ensures var w := Replication.Fold(ReducerOf(find), es).work;
            FieldOf(w, id, (t: Task) => t.status) == Last(es, (e: Event<Body>) => StatusEffect(id, e.body))
  {
    var get := (w: Work) => FieldOf(w, id, (t: Task) => t.status);
    var effect := (e: Event<Body>) => StatusEffect(id, e.body);
    forall e: Event<Body>, w: Work ensures get(ApplyToWork(e.body, w)) == After(get(w), effect(e)) {
      StatusStep(e.body, w, id);
    }
    WorkFoldsToLast(find, get, effect, es);
  }

  function ErrorTypeEffect(id: TaskId, b: Body): Effect<Option<nat>>
  {
    match b
    case TaskStatusUpdated(k, status) => if k == id && status != Failed then Replace(None) else Keep
    case TaskFailed(k, errorType, _) => if k == id then Replace(Some(errorType)) else Keep
    case _ => Created(id, (t: Task) => t.errorType, b)
  }

  lemma {:induction false} StatusErrorType(k: TaskId, status: TaskStatus, w: Work, id: TaskId)
    ensures FieldOf(WithTaskStatus(k, status, w), id, (t: Task) => t.errorType)
            == After(FieldOf(w, id, (t: Task) => t.errorType), ErrorTypeEffect(id, TaskStatusUpdated(k, status)))
  {
  }

  lemma {:induction false} FailedErrorType(k: TaskId, errorType: nat, message: nat, w: Work, id: TaskId)
    ensures FieldOf(WithTaskError(k, errorType, message, w), id, (t: Task) => t.errorType)
            == After(FieldOf(w, id, (t: Task) => t.errorType), ErrorTypeEffect(id, TaskFailed(k, errorType, message)))
  {
  }

  lemma {:induction false} ErrorTypeStep(b: Body, w: Work, id: TaskId)
    ensures var v := ApplyToWork(b, w);
            FieldOf(v, id, (t: Task) => t.errorType)
            == After(FieldOf(w, id, (t: Task) => t.errorType), ErrorTypeEffect(id, b))
  {
    if b.TaskStatusUpdated? {
      StatusErrorType(b.taskId, b.taskStatus, w, id);
    } else if b.TaskFailed? {
      FailedErrorType(b.taskId, b.errorType, b.errorMessage, w, id);
    } else if !AboutTasks(b) {
      TasksKept(b, w);
    }
  }

  /** The error of a task's last failure, unless a status other than failed has cleared it. */
  lemma {:induction false} ErrorTypeHistory(find: CycleFinder, es: seq<Event<Body>>, id: TaskId)
    ensures var w := Replication.Fold(ReducerOf(find), es).work;
            FieldOf(w, id, (t: Task) => t.errorType) == Last(es, (e: Event<Body>) => ErrorTypeEffect(id, e.body))
  {
    var get := (w: Work) => FieldOf(w, id, (t: Task) => t.errorType);
    var effect := (e: Event<Body>) => ErrorTypeEffect(id, e.body);
    forall e: Event<Body>, w: Work ensures get(ApplyToWork(e.body, w)) == After(get(w), effect(e)) {
      ErrorTypeStep(e.body, w, id);
    }
    WorkFoldsToLast(find, get, effect, es);
  }

  function ErrorMessageEffect(id: TaskId, b: Body): Effect<Option<nat>>
  {
    match b
    case TaskStatusUpdated(k, status) => if k == id && status != Failed then Replace(None) else Keep
    case TaskFailed(k, _, message) => if k == id then Replace(Some(message)) else Keep
    case _ => Created(id, (t: Task) => t.errorMessage, b)
  }

  lemma {:induction false} StatusErrorMessage(k: TaskId, status: TaskStatus, w: Work, id: TaskId)
    ensures FieldOf(WithTaskStatus(k, status, w), id, (t: Task) => t.errorMessage)
            == After(FieldOf(w, id, (t: Task) => t.errorMessage), ErrorMessageEffect(id, TaskStatusUpdated(k, status)))
  {
  }

  lemma {:induction false} FailedErrorMessage(k: TaskId, errorType: nat, message: nat, w: Work, id: TaskId)
    ensures FieldOf(WithTaskError(k, errorType, message, w), id, (t: Task) => t.errorMessage)
            == After(FieldOf(w, id, (t: Task) => t.errorMessage),
                     ErrorMessageEffect(id, TaskFailed(k, errorType, message)))
  {
  }

  lemma {:induction false} ErrorMessageStep(b: Body, w: Work, id: TaskId)
    ensures var v := ApplyToWork(b, w);
            FieldOf(v, id, (t: Task) => t.errorMessage)
            == After(FieldOf(w, id, (t: Task) => t.errorMessage), ErrorMessageEffect(id, b))
  {
    if b.TaskStatusUpdated? {
      StatusErrorMessage(b.taskId, b.taskStatus, w, id);
    } else if b.TaskFailed? {
      FailedErrorMessage(b.taskId, b.errorType, b.errorMessage, w, id);
    } else if !AboutTasks(b) {
      TasksKept(b, w);
    }
  }

  /** The message that goes with it. */
  lemma {:induction false} ErrorMessageHistory(find: CycleFinder, es: seq<Event<Body>>, id: TaskId)
    ensures var w := Replication.Fold(ReducerOf(find), es).work;
            FieldOf(w, id, (t: Task) => t.errorMessage) == Last(es, (e: Event<Body>) => ErrorMessageEffect(id, e.body))
  {
    var get := (w: Work) => FieldOf(w, id, (t: Task) => t.errorMessage);
    var effect := (e: Event<Body>) => ErrorMessageEffect(id, e.body);
    forall e: Event<Body>, w: Work ensures get(ApplyToWork(e.body, w)) == After(get(w), effect(e)) {
      ErrorMessageStep(e.body, w, id);
    }
    WorkFoldsToLast(find, get, effect, es);
  }

  function OriginEffect(id: TaskId, b: Body): Effect<(TaskId, InstanceId, nat)>
  {
    Created(id, (t: Task) => (t.id, t.instance, t.params), b)
  }

  lemma {:induction false} OriginStep(b: Body, w: Work, id: TaskId)
    ensures var v := ApplyToWork(b, w);
            FieldOf(v, id, (t: Task) => (t.id, t.instance, t.params))
            == After(FieldOf(w, id, (t: Task) => (t.id, t.instance, t.params)), OriginEffect(id, b))
  {
    if !AboutTasks(b) {
      TasksKept(b, w);
    }
  }

  /** All else of a task is as it was created. */
  lemma {:induction false} OriginHistory(find: CycleFinder, es: seq<Event<Body>>, id: TaskId)
    ensures var w := Replication.Fold(ReducerOf(find), es).work;
            FieldOf(w, id, (t: Task) => (t.id, t.instance, t.params))
            == Last(es, (e: Event<Body>) => OriginEffect(id, e.body))
  {
    var get := (w: Work) => FieldOf(w, id, (t: Task) => (t.id, t.instance, t.params));
    var effect := (e: Event<Body>) => OriginEffect(id, e.body);
    forall e: Event<Body>, w: Work ensures get(ApplyToWork(e.body, w)) == After(get(w), effect(e)) {
      OriginStep(e.body, w, id);
    }
    WorkFoldsToLast(find, get, effect, es);
  }

  // ----- links -----

  /** The link without one instance, in order, if both sides keep a member. */
  ghost predicate CutOf(link: Link, id: InstanceId, after: Option<Link>)
  {
    && (after.Some? <==> (exists i :: i in link.prefill && i != id) && (exists i :: i in link.decode && i != id))
    && (after.Some? ==>
          && after.value.id == link.id
          && after.value.prefill == Remove(link.prefill, id) && after.value.decode == Remove(link.decode, id))
  }

  lemma {:induction false} SomethingLeft(ids: seq<InstanceId>, id: InstanceId)
    ensures Remove(ids, id) != [] <==> exists i :: i in ids && i != id
  {
    if Remove(ids, id) != [] {
      var i := Remove(ids, id)[0];
      RemoveMembers(ids, id, i);
    }
    if i :| i in ids && i != id {
      RemoveMembers(ids, id, i);
    }
  }

  /** What each event does to a link. */
  lemma {:induction false} LinkStep(b: Body, w: Work, l: LinkId)
    ensures match b
            case LinkCreated(link) =>
              Get(ApplyToWork(b, w).links, l) == if link.id == l then Some(link) else Get(w.links, l)
            case LinkDeleted(k) => Get(ApplyToWork(b, w).links, l) == if k == l then None else Get(w.links, l)
            case InstanceDeleted(id) =>
              if l in w.links then CutOf(w.links[l], id, Get(ApplyToWork(b, w).links, l))
              else Get(ApplyToWork(b, w).links, l) == None
            case _ => Get(ApplyToWork(b, w).links, l) == Get(w.links, l)
  {
    if b.InstanceDeleted? && l in w.links {
      SomethingLeft(w.links[l].prefill, b.instanceId);
      SomethingLeft(w.links[l].decode, b.instanceId);
    }
  }
}
