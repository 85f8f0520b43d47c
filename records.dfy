// The client-side shapes of the records the backend serves (an application
// row, an essay row) and of the per-application maps the client keeps.
module Records {
  import opened Wrappers

  /**
   * An application as the client holds it. Absent text fields are "" and
   * absent fees are 0.0, which every client rule treats alike (both falsy).
   */
  datatype Application = Application(
    id: int,
    schoolName: string,
    programName: string,
    applicationRound: string,
    deadline: string,
    applicationFee: real,
    programTotalFee: real,
    feeCurrency: string,
    essaysRequired: int,
    lorsRequired: int,
    lorsSubmitted: int,
    interviewRequired: bool,
    interviewCompleted: bool,
    decisionStatus: string,
    requirementsNotes: string,
    status: string)

  /** An essay version as the client holds it. */
  datatype Essay = Essay(
    id: Option<int>,
    schoolName: string,
    programType: string,
    applicationId: Option<int>,
    parentEssayId: Option<int>,
    version: int,
    createdAt: string,
    essayPrompt: string,
    essayContent: string)

  /** A flat record of named text fields (a document entry, a research card). */
  type Fields = map<string, string>

  /** Document checklist entries: scope key, then template id, then the entry. */
  type DocsByScope = map<string, map<string, Fields>>

  /** Per-application cards keyed by application id. */
  type CardsByApplication = map<int, Fields>

  /** `scope[docId]?.status`, "" when the entry or its status is absent. */
  function DocStatusIn(scope: map<string, Fields>, docId: string): string
  {
    if docId in scope && "status" in scope[docId] then scope[docId]["status"] else ""
  }

  /** `docStatusByApplication[key] || {}`. */
  function ScopeOf(docs: DocsByScope, key: string): map<string, Fields>
  {
    if key in docs then docs[key] else map[]
  }
}
