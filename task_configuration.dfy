/**
 * TaskConfiguration: the registration of one task type and its ordered list of step
 * types. Configurations are equal when they are for the same task type.
 */
module TaskConfig {
  import opened Wrappers

  /** A System.Type, known by its full name; two types are the same type iff their names agree. */
  datatype TypeRef = TypeRef(fullName: string)

  /** The application a task belongs to; only its identity matters here. */
  class ApplicationConfiguration {
  }

  /** Steps.RemoveAll(x => x == step): every occurrence of `step` removed, the rest kept in order. */
  function RemoveAll(steps: seq<TypeRef>, step: TypeRef): (r: seq<TypeRef>)
    ensures step !in r
    ensures forall x :: x != step ==> multiset(r)[x] == multiset(steps)[x]
  {
    if steps == [] then []
    else
      assert steps == [steps[0]] + steps[1..];
      (if steps[0] == step then [] else [steps[0]]) + RemoveAll(steps[1..], step)
  }

  /** RemoveAll keeps the order of what it keeps: it works piecewise on a concatenation. */
  lemma {:induction false} RemoveAllAppend(a: seq<TypeRef>, b: seq<TypeRef>, step: TypeRef)
    ensures RemoveAll(a + b, step) == RemoveAll(a, step) + RemoveAll(b, step)
  {
    if a == [] {
      assert a + b == b;
    } else {
      assert (a + b)[1..] == a[1..] + b;
      RemoveAllAppend(a[1..], b, step);
    }
  }

  /** Removing a step type that is not registered changes nothing. */
  lemma {:induction false} RemoveAllAbsent(steps: seq<TypeRef>, step: TypeRef)
    requires step !in steps
    ensures RemoveAll(steps, step) == steps
  {
    if steps != [] {
      RemoveAllAbsent(steps[1..], step);
    }
  }

  /**
   * TaskConfiguration<TWorkItem>: `workItem` is TWorkItem, which decides the runtime
   * class that object Equals compares.
   */
  class TaskConfiguration {
    const application: ApplicationConfiguration
    const task: TypeRef
    const workItem: TypeRef
    var steps: seq<TypeRef>

    constructor (application: ApplicationConfiguration, task: TypeRef, workItem: TypeRef)
      ensures this.application == application && this.task == task && this.workItem == workItem
      ensures steps == []
    {
      this.application := application;
      this.task := task;
      this.workItem := workItem;
      steps := [];
    }

    /** The constructor's null checks: the application first, then the task type. */
    static method New(application: ApplicationConfiguration?, task: Option<TypeRef>, workItem: TypeRef)
      returns (r: Result<TaskConfiguration>)
      ensures application == null ==> r == Err(ArgumentNull("application"))
      ensures application != null && task.None? ==> r == Err(ArgumentNull("task"))
      ensures application != null && task.Some? ==>
        r.Ok? && fresh(r.value) && r.value.application == application && r.value.task == task.value
        && r.value.workItem == workItem && r.value.steps == []
    {
      if application == null {
        return Err(ArgumentNull("application"));
      }
      if task.None? {
        return Err(ArgumentNull("task"));
      }
      var c := new TaskConfiguration(application, task.value, workItem);
      r := Ok(c);
    }

    /** Step<TStep>(): appends the step type, even when it is already there. */
    method Step(step: TypeRef) returns (self: TaskConfiguration)
      modifies this`steps
      ensures self == this && steps == old(steps) + [step]
    {
      steps := steps + [step];
      self := this;
    }

    method Clear() returns (self: TaskConfiguration)
      modifies this`steps
      ensures self == this && steps == []
    {
      steps := [];
      self := this;
    }

    method Remove(step: TypeRef) returns (self: TaskConfiguration)
      modifies this`steps
      ensures self == this && steps == RemoveAll(old(steps), step)
    {
      steps := RemoveAll(steps, step);
      self := this;
    }

    /** The value GetHashCode hashes: the task type. */
    function HashKey(): TypeRef {
      task
    }

    /** Equals(TaskConfiguration): not null, and the same object or the same task type. */
    predicate Equals(other: TaskConfiguration?)
      ensures Equals(other) <==> other != null && task == other.task
    {
      other != null && (other == this || task == other.task)
    }

    /** Equals(object): additionally the same runtime class, that is the same work item type. */
    predicate EqualsObject(other: TaskConfiguration?)
      ensures EqualsObject(other) <==> other != null && task == other.task && workItem == other.workItem
    {
      other != null && (other == this || (workItem == other.workItem && Equals(other)))
    }
  }

  /**
   * Equality is by task type alone, it is an equivalence, object Equals implies it, and
   * equal configurations hash alike.
   */
  lemma EqualityByTask(a: TaskConfiguration, b: TaskConfiguration, c: TaskConfiguration)
    ensures a.Equals(b) <==> a.task == b.task
    ensures a.Equals(a) && (a.Equals(b) ==> b.Equals(a)) && (a.Equals(b) && b.Equals(c) ==> a.Equals(c))
    ensures a.EqualsObject(b) <==> a.task == b.task && a.workItem == b.workItem
    ensures a.EqualsObject(b) ==> a.Equals(b)
    ensures a.Equals(b) ==> a.HashKey() == b.HashKey()
  {
  }
}
