// The application tracker and essay tables of backend/models.py as the
// rows a database session holds. Columns the rules below never read (the
// AI review, the time stamps) are left out; nullable columns are options.
module TrackerDb {
  import opened Wrappers
  import opened Dates

  /** `ApplicationTracker`. */
  datatype Application = Application(
    id: int, userId: int, schoolName: Option<string>, programName: Option<string>, applicationRound: Option<string>,
    deadline: CalendarDate, applicationFee: Option<real>, programTotalFee: Option<real>, feeCurrency: string,
    essaysRequired: int, lorsRequired: int, lorsSubmitted: int, interviewRequired: bool, interviewCompleted: bool,
    decisionStatus: string, requirementsNotes: Option<string>, status: string)

  /** `Essay`: one version in a chain of essay versions. */
  datatype Essay = Essay(
    id: int, userId: int, schoolName: Option<string>, programType: Option<string>, essayPrompt: string,
    essayContent: string, version: int, parentEssayId: Option<int>, applicationId: Option<int>, isLatest: bool)

  predicate UniqueApplicationIds(apps: seq<Application>)
  {
    forall i, j :: 0 <= i < j < |apps| ==> apps[i].id != apps[j].id
  }

  predicate UniqueEssayIds(essays: seq<Essay>)
  {
    forall i, j :: 0 <= i < j < |essays| ==> essays[i].id != essays[j].id
  }

  /** A database session over the two tables. */
  class Tables {
    var applications: seq<Application>
    var essays: seq<Essay>

    /** Primary keys are unique. */
    predicate Valid()
      reads this
    {
      UniqueApplicationIds(applications) && UniqueEssayIds(essays)
    }

    constructor (applications: seq<Application>, essays: seq<Essay>)
      requires UniqueApplicationIds(applications) && UniqueEssayIds(essays)
      ensures Valid()
      ensures this.applications == applications && this.essays == essays
    {
      this.applications := applications;
      this.essays := essays;
    }
  }
}
