/** The single-blog page: who counts as the blog's author, the two-step
    delete control, and the error screen. */
module BlogDetail {
  import opened Common
  import opened UserModel
  import opened BlogModel
  import opened Http
  import opened BlogController

  /** The signed-in user held by the auth context: the `user` object of the
      login response, a public user summary. */
  datatype SessionUser = SessionUser(summary: UserSummary)

  /** `user._id`: the summary carries its id under `id`, so `_id` is undefined. */
  function UnderscoreId(u: SessionUser): (r: Option<ObjectId>)
    ensures r.None?
  {
    None
  }

  /** `blog.author?._id`: undefined when the author was not populated. */
  function AuthorId(v: BlogView): (r: Option<ObjectId>)
    ensures r.Some? <==> v.author.Some?
    ensures r.Some? ==> r.value == v.author.value.id
  {
    if v.author.Some? then Some(v.author.value.id) else None
  }

  /** `isAuthor = user && user._id === blog.author?._id`, as written. */
  predicate IsAuthorAsWritten(user: Option<SessionUser>, v: BlogView) {
    user.Some? && UnderscoreId(user.value) == AuthorId(v)
  }

  /** As written, the author controls appear for every signed-in user on a
      blog without a populated author, and for nobody on any other blog, the
      blog's own author included. */
  lemma IsAuthorAsWrittenIgnoresUser(user: Option<SessionUser>, v: BlogView)
    ensures IsAuthorAsWritten(user, v) <==> user.Some? && v.author.None?
  {
  }

  /** The check with the summary's own id: `user.id === blog.author?._id`. */
  predicate IsAuthor(user: Option<SessionUser>, v: BlogView) {
    user.Some? && Some(user.value.summary.id) == AuthorId(v)
  }

  /** On a blog as the server shows it, the corrected check holds exactly when
      the signed-in user is the stored author, and then the server also lets
      that user update and delete the blog. */
  lemma IsAuthorMatchesOwnership(u: SessionUser, b: Blog, users: map<ObjectId, User>)
    ensures IsAuthor(Some(u), Populate(b, users)) <==>
      b.author == Some(u.summary.id) && u.summary.id in users
    ensures IsAuthor(Some(u), Populate(b, users)) ==> CanMutate(b, u.summary.id)
  {
  }

  // ------------------------------------------------------------ delete control

  /** The buttons of the author controls. */
  datatype Press = PressDelete | PressCancel | PressConfirm

  /** The confirm flag after a press, and whether the press calls the delete
      endpoint. Without author controls no button exists; with them, Delete is
      shown while the flag is clear, and Confirm and Cancel while it is set. */
  function ControlStep(confirming: bool, p: Press, isAuthor: bool): (r: (bool, bool))
    ensures r.1 <==> isAuthor && confirming && p == PressConfirm
    ensures !isAuthor ==> r.0 == confirming
    ensures isAuthor && !confirming ==> (r.0 <==> p == PressDelete)
    ensures isAuthor && confirming ==> (r.0 <==> p != PressCancel)
  {
    if !isAuthor then (confirming, false)
    else if confirming then
      match p
      case PressConfirm => (true, true)
      case PressCancel => (false, false)
      case PressDelete => (true, false)
    else
      (p == PressDelete, false)
  }

  /** Whether a sequence of presses, from the given flag, ever calls delete. */
  function Deletes(confirming: bool, ps: seq<Press>, isAuthor: bool): bool
    decreases |ps|
  {
    if ps == [] then false
    else
      var step := ControlStep(confirming, ps[0], isAuthor);
      step.1 || Deletes(step.0, ps[1..], isAuthor)
  }

  /** Delete is only ever called by the author, by a Confirm press that
      follows a Delete press (or a flag that was already set). */
  lemma {:induction false} DeletesNeedsConfirm(confirming: bool, ps: seq<Press>, isAuthor: bool)
    ensures Deletes(confirming, ps, isAuthor) ==> isAuthor
    ensures Deletes(confirming, ps, isAuthor) ==>
      exists j :: 0 <= j < |ps| && ps[j] == PressConfirm &&
        (confirming || exists i :: 0 <= i < j && ps[i] == PressDelete)
    decreases |ps|
  {
    if ps != [] && Deletes(confirming, ps, isAuthor) {
      var step := ControlStep(confirming, ps[0], isAuthor);
      if !step.1 {
        DeletesNeedsConfirm(step.0, ps[1..], isAuthor);
        var j :| 0 <= j < |ps| - 1 && ps[1..][j] == PressConfirm &&
          (step.0 || exists i :: 0 <= i < j && ps[1..][i] == PressDelete);
        assert ps[j + 1] == PressConfirm;
        if !confirming && step.0 {
          assert ps[0] == PressDelete;
        } else if !step.0 {
          var i :| 0 <= i < j && ps[1..][i] == PressDelete;
          assert ps[i + 1] == PressDelete;
        }
      }
    }
  }

  /** From a fresh page, Delete followed by Confirm calls delete. */
  lemma DeleteThenConfirm()
    ensures Deletes(false, [PressDelete, PressConfirm], true)
  {
    assert [PressDelete, PressConfirm][1..] == [PressConfirm];
  }

  /** The `showDeleteConfirm` flag of the page. */
  class DeleteControls {
    var showDeleteConfirm: bool

    constructor ()
      ensures !showDeleteConfirm
    {
      showDeleteConfirm := false;
    }

    /** A click on one of the author controls. */
    method Press(p: Press, isAuthor: bool) returns (callsDelete: bool)
      modifies this
      ensures (showDeleteConfirm, callsDelete) == ControlStep(old(showDeleteConfirm), p, isAuthor)
    {
      if !isAuthor {
        return false;
      }
      if showDeleteConfirm {
        match p {
          case PressConfirm => callsDelete := true;
          case PressCancel => showDeleteConfirm := false; callsDelete := false;
          case PressDelete => callsDelete := false;
        }
      } else {
        showDeleteConfirm := p == PressDelete;
        callsDelete := false;
      }
    }
  }

  // ------------------------------------------------------------ error screen

  /** The message of the error screen, shown when there is an error or no
      blog: the error when set, else "Blog not found". */
  function ErrorScreen(error: string, blog: Option<BlogView>): (r: Option<string>)
    ensures r.None? <==> error == "" && blog.Some?
    ensures r.Some? ==> r.value != ""
    ensures r.Some? && error != "" ==> r.value == error
    ensures r.Some? && error == "" ==> r.value == "Blog not found"
  {
    if error != "" || blog.None? then
      Some(if error != "" then error else "Blog not found")
    else
      None
  }

  // ------------------------------------------------------------ after delete

  /** What the page does once the delete request settled. */
  datatype AfterDelete = GoHome | ShowDeleteError(message: string)

  /** `handleDelete`: the answer's body is never read; only a request that
      failed keeps the page, with its own message. */
  function DeleteSettled(response: Option<Body>): (a: AfterDelete)
    ensures a == GoHome <==> response.Some?
    ensures response.None? ==> a == ShowDeleteError("Failed to delete blog")
  {
    if response.Some? then GoHome else ShowDeleteError("Failed to delete blog")
  }

  /** Every answer the delete endpoint gives sends the page home, also the
      403 for a blog that someone else owns and the 404 for one that is gone. */
  lemma DeleteLeavesOnRefusal(r: Response)
    requires r == BlogNotFound || r == DeleteForbidden
    ensures DeleteSettled(Some(r.body)) == GoHome && r.status != 200
  {
  }
}
