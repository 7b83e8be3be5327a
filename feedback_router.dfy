/**
 * Citizen feedback (backend/api/feedback_router.py): submission against an
 * existing project, the full listing, and moderation. Moderation moves a
 * feedback to "approved" or "rejected" from whatever status it has.
 */
module FeedbackRouter {
  import opened Common
  import opened Models

  const ProjectNotFound := HttpError(404, "Project not found")
  const FeedbackNotFound := HttpError(404, "Feedback not found")
  const InvalidModeration := HttpError(400, "Invalid status. Use 'approved' or 'rejected'")
  const ThankYou := "Thank you! Your observation has been submitted and will be reviewed."

  /** The status column's default. */
  const Pending := "pending"

  /**
   * The body of `submit_feedback` (the `Feedback` table model). `status` is
   * None when the client left it out, and the column default applies.
   */
  datatype FeedbackBody = FeedbackBody(
    projectId: int,
    name: Option<string>,
    email: Option<string>,
    message: string,
    status: Option<string>)

  /** The stored row: the client's host (None without a client) and the creation time. */
  function NewFeedback(id: int, b: FeedbackBody, clientHost: Option<string>, now: Timestamp): (f: Feedback)
    ensures f.id == id && f.projectId == b.projectId && f.message == b.message
    ensures f.ipAddress == clientHost
    ensures b.status.None? ==> f.status == Pending
    ensures b.status.Some? ==> f.status == b.status.value
  {
    Feedback(id, b.projectId, b.name, b.email, b.message, clientHost,
      if b.status.Some? then b.status.value else Pending, now)
  }

  method SubmitFeedback(db: Db, b: FeedbackBody, clientHost: Option<string>, now: Timestamp) returns (r: Result<string, HttpError>)
    requires FeedbackValid(db.feedback, db.nextFeedbackId)
    modifies db`feedback, db`nextFeedbackId
    ensures FeedbackValid(db.feedback, db.nextFeedbackId)
    ensures b.projectId !in db.projects ==>
      r == Err(ProjectNotFound) && db.feedback == old(db.feedback) && db.nextFeedbackId == old(db.nextFeedbackId)
    ensures b.projectId in db.projects ==>
      var f := NewFeedback(old(db.nextFeedbackId), b, clientHost, now);
      && r == Ok(ThankYou)
      && db.feedback == old(db.feedback)[f.id := f]
      && db.nextFeedbackId == old(db.nextFeedbackId) + 1
  {
    if b.projectId !in db.projects {
      return Err(ProjectNotFound);
    }
    var f := NewFeedback(db.nextFeedbackId, b, clientHost, now);
    db.feedback := db.feedback[f.id := f];
    db.nextFeedbackId := db.nextFeedbackId + 1;
    r := Ok(ThankYou);
  }

  /** `select(Feedback)`: every row, in id order. */
  function AllFeedback(feedback: map<int, Feedback>, next: int): (r: seq<Feedback>)
    requires FeedbackValid(feedback, next)
    ensures forall i, j :: 0 <= i < j < |r| ==> r[i].id < r[j].id
    ensures forall i :: 0 <= i < |r| ==> r[i].id in feedback && feedback[r[i].id] == r[i]
    ensures forall k :: k in feedback ==> feedback[k] in r
  {
    forall k | k in feedback
      ensures feedback[k] in ValuesAsc(feedback, 1, next)
    {
      ValuesAscComplete(feedback, 1, next, k);
    }
    ValuesAsc(feedback, 1, next)
  }

  /** `status_update.get("status")` accepted as a moderation outcome. */
  function Moderation(f: Field): (r: Option<string>)
    ensures r.Some? <==> f.Text? && f.s in ["approved", "rejected"]
    ensures r.Some? ==> r.value == f.s
  {
    if f.Text? && (f.s == "approved" || f.s == "rejected") then Some(f.s) else None
  }

  method UpdateFeedbackStatus(db: Db, id: int, status: Field) returns (r: Result<string, HttpError>)
    requires FeedbackValid(db.feedback, db.nextFeedbackId)
    modifies db`feedback
    ensures FeedbackValid(db.feedback, db.nextFeedbackId)
    ensures id !in old(db.feedback) ==> r == Err(FeedbackNotFound) && db.feedback == old(db.feedback)
    ensures id in old(db.feedback) && Moderation(status).None? ==> r == Err(InvalidModeration) && db.feedback == old(db.feedback)
    ensures id in old(db.feedback) && Moderation(status).Some? ==>
      && r == Ok("Feedback marked as " + Moderation(status).value)
      && db.feedback == old(db.feedback)[id := old(db.feedback)[id].(status := Moderation(status).value)]
  {
    if id !in db.feedback {
      return Err(FeedbackNotFound);
    }
    var s := Moderation(status);
    if s.None? {
      return Err(InvalidModeration);
    }
    db.feedback := db.feedback[id := db.feedback[id].(status := s.value)];
    r := Ok("Feedback marked as " + s.value);
  }

  /**
   * Sending the same moderation twice answers the same both times and leaves
   * the table as one request does.
   */
  method ModerateTwice(db: Db, id: int, status: Field) returns (first: Result<string, HttpError>, second: Result<string, HttpError>)
    requires FeedbackValid(db.feedback, db.nextFeedbackId)
    modifies db`feedback
    ensures first == second
    ensures id in old(db.feedback) && Moderation(status).Some? ==>
      db.feedback == old(db.feedback)[id := old(db.feedback)[id].(status := Moderation(status).value)]
    ensures id !in old(db.feedback) || Moderation(status).None? ==> db.feedback == old(db.feedback)
  {
    first := UpdateFeedbackStatus(db, id, status);
    second := UpdateFeedbackStatus(db, id, status);
  }
}
