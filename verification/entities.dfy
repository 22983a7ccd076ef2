/**
  The things a dependency graph is built from: tasks (which expose their
  dependencies), projects (which expose their tasks), and the presenter that
  tells the two apart and names them.
 */
module Entities {

  /** The presenter id of a task (its id stringified) or of a project. */
  type Id = string

  datatype Option<T> = None | Some(value: T)

  /** TaskWarrior's task statuses; only `Deleted` matters to the graph. */
  datatype Status = Pending | Completed | Waiting | Recurring | Deleted

  /** A task: its status and the ids of the tasks it depends on, in declared order. */
  datatype Task = Task(status: Status, dependencies: seq<Id>)

  /**
    Every task object the caller can hand over, by id. A dependency whose id
    is not a key here is a nil reference.
   */
  type Universe = map<Id, Task>

  /** A project: its name (its presenter id) and the ids of its tasks, in declared order. */
  datatype Project = Project(name: Id, tasks: seq<Id>)

  /**
    What `<<` accepts. A `TaskRef` whose id is not in the universe stands for
    nil; it answers no `dependencies`, so the source treats it like a project.
   */
  datatype Thing = TaskRef(id: Id) | ProjectRef(project: Project)

  /** `is_deleted_or_absent`: nil, or a task whose status is deleted. */
  predicate IsDeletedOrAbsent(u: Universe, id: Id): (r: bool)
    ensures id !in u ==> r
    ensures !r ==> id in u && u[id].status != Deleted
  {
    id !in u || u[id].status == Deleted
  }

  /** What a presenter gives the graph: an id to key nodes and clusters by, or nothing for nil. */
  datatype Presentation = NullPresentation | TaskPresentation(id: Id) | ProjectPresentation(id: Id)

  /**
    `presenter`: nil gets the null presentation, a thing answering
    `dependencies` a task presentation keyed by the task's own id, anything
    else a project presentation keyed by the project's name.
   */
  function Presenter(u: Universe, thing: Thing): (p: Presentation)
    ensures p.NullPresentation? <==> thing.TaskRef? && thing.id !in u
    ensures p.TaskPresentation? <==> thing.TaskRef? && thing.id in u
    ensures p.TaskPresentation? ==> p.id == thing.id
    ensures p.ProjectPresentation? ==> p.id == thing.project.name
  {
    match thing
    case TaskRef(id) => if id in u then TaskPresentation(id) else NullPresentation
    case ProjectRef(project) => ProjectPresentation(project.name)
  }
}
