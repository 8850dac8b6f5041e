/**
 * The data shapes of the task board: the closed status enumeration, users,
 * tasks with their status history, the board's task projection, projects and
 * the dashboard projection. Each schema becomes a datatype; each `pick`
 * becomes a projection function.
 */
module Types {
  import opened Wrappers

  /** The five task states; no other value is a status. */
  datatype TaskStatus = Pending | OnHold | InProgress | UnderReview | Completed

  /** The statuses in the order the enumeration lists them. */
  const AllStatuses: seq<TaskStatus> := [Pending, OnHold, InProgress, UnderReview, Completed]

  /** The statuses as a set: the keys every status grouping must have. */
  const StatusKeys: set<TaskStatus> := {Pending, OnHold, InProgress, UnderReview, Completed}

  /** The wire name of a status, as the enumeration spells it. */
  function StatusName(s: TaskStatus): string
  {
    match s
    case Pending => "pending"
    case OnHold => "onHold"
    case InProgress => "inProgress"
    case UnderReview => "underReview"
    case Completed => "completed"
  }

  /** The status whose wire name is `name`, if there is one. */
  function ParseStatus(name: string): (r: Option<TaskStatus>)
    ensures r.Some? ==> StatusName(r.value) == name
  {
    if name == "pending" then Some(Pending)
    else if name == "onHold" then Some(OnHold)
    else if name == "inProgress" then Some(InProgress)
    else if name == "underReview" then Some(UnderReview)
    else if name == "completed" then Some(Completed)
    else None
  }

  /** Parsing accepts exactly the five wire names, and each one names its own status. */
  lemma ParseStatusExact(name: string)
    ensures ParseStatus(name).Some? <==> exists s :: s in AllStatuses && StatusName(s) == name
    ensures forall s :: StatusName(s) == name ==> ParseStatus(name) == Some(s)
  {
  }

  /** Every status's wire name parses back to that status. */
  lemma StatusNameRoundTrip(s: TaskStatus)
    ensures ParseStatus(StatusName(s)) == Some(s)
  {
  }

  /** There are exactly five statuses, all distinct, and every status is one of them. */
  lemma FiveStatuses()
    ensures |AllStatuses| == 5 && |StatusKeys| == 5
    ensures StatusKeys == set s | s in AllStatuses
    ensures forall s: TaskStatus :: s in AllStatuses && s in StatusKeys
    ensures forall i, j :: 0 <= i < j < |AllStatuses| ==> AllStatuses[i] != AllStatuses[j]
  {
    forall s: TaskStatus ensures s in AllStatuses && s in StatusKeys {
      StatusIsKey(s);
    }
  }

  /** Every status value is one of the five keys. */
  lemma StatusIsKey(s: TaskStatus)
    ensures s in AllStatuses && s in StatusKeys
  {
  }

  /** A user as the client sees it. */
  datatype User = User(id: string, name: string, email: string)

  /** A team member keeps the user's id, name and email. */
  type TeamMember = User

  /** One entry of a task's status history: who set which status. */
  datatype StatusChange = StatusChange(id: string, user: User, status: TaskStatus)

  /** A full task with its owning project, history and timestamps. */
  datatype Task = Task(
    id: string,
    name: string,
    description: string,
    project: string,
    status: TaskStatus,
    completedBy: seq<StatusChange>,
    createdAt: string,
    updatedAt: string)

  /** The board's view of a task: identifier, name, description and status. */
  datatype TaskProject = TaskProject(id: string, name: string, description: string, status: TaskStatus)

  /** The board projection of a task. */
  function ToTaskProject(t: Task): TaskProject
  {
    TaskProject(t.id, t.name, t.description, t.status)
  }

  /**
   * The projection keeps exactly the identifier, name, description and status:
   * two tasks project alike iff those four agree, whatever their project,
   * history and timestamps.
   */
  lemma ToTaskProjectKeepsFourFields(t1: Task, t2: Task)
    ensures ToTaskProject(t1) == ToTaskProject(t2) <==>
      t1.id == t2.id && t1.name == t2.name && t1.description == t2.description && t1.status == t2.status
    ensures ToTaskProject(t1).status in StatusKeys
    ensures forall i :: 0 <= i < |t1.completedBy| ==> t1.completedBy[i].status in StatusKeys
  {
    StatusIsKey(t1.status);
    forall i | 0 <= i < |t1.completedBy| ensures t1.completedBy[i].status in StatusKeys {
      StatusIsKey(t1.completedBy[i].status);
    }
  }

  /** A project with its task summaries and its team of user ids; the manager is a user id. */
  datatype Project = Project(
    id: string,
    projectName: string,
    clientName: string,
    description: string,
    manager: string,
    tasks: seq<TaskProject>,
    team: seq<string>)

  /** A project as the dashboard lists it: without tasks and team. */
  datatype DashboardProject = DashboardProject(
    id: string,
    projectName: string,
    clientName: string,
    description: string,
    manager: string)

  /** The dashboard projection of a project. */
  function ToDashboardProject(p: Project): DashboardProject
  {
    DashboardProject(p.id, p.projectName, p.clientName, p.description, p.manager)
  }

  /**
   * The dashboard projection keeps exactly the identifier, the two names, the
   * description and the manager: two projects project alike iff those five
   * agree, whatever their tasks and team.
   */
  lemma ToDashboardProjectKeepsFiveFields(p1: Project, p2: Project)
    ensures ToDashboardProject(p1) == ToDashboardProject(p2) <==>
      p1.id == p2.id && p1.projectName == p2.projectName && p1.clientName == p2.clientName &&
      p1.description == p2.description && p1.manager == p2.manager
  {
  }

}
