/** The comment thread under a video: its local comment list, the optimistic
    create with rollback, edit and delete by id, and the single-flight fetch. */
module CommentThread {
  import opened Wrappers
  import opened Text
  import opened Seqs
  import opened Entities

  /** The marker that tells a provisional (not yet confirmed) comment id from a server id. */
  const TEMP_PREFIX := "temp-"
  /** The author name used when the signed-in user has none. */
  const DEFAULT_USERNAME := "You"

  predicate IsProvisionalId(id: string) {
    TEMP_PREFIX <= id
  }

  /** The comment put in front of the list before the create call settles. */
  function ProvisionalComment(videoId: string, user: User, text: string, now: nat): Comment {
    Comment(TEMP_PREFIX + DecimalString(now), videoId, user.id,
            if user.username == "" then DEFAULT_USERNAME else user.username,
            user.avatar, Trim(text), now)
  }

  /** Whether the edit and delete controls are shown to `user` for comment `c`. */
  predicate ShowsControls(user: Option<User>, c: Comment) {
    user.Some? && user.value.id == c.userId
  }

  /** Every entry whose id is `id` replaced by `confirmed`, the rest kept in place. */
  function ReplaceById(s: seq<Comment>, id: string, confirmed: Comment): (r: seq<Comment>)
    ensures |r| == |s|
  {
    if s == [] then [] else [if s[0].id == id then confirmed else s[0]] + ReplaceById(s[1..], id, confirmed)
  }

  /** Every entry whose id is `id` given the new text, all its other fields and
      every other entry kept in place. */
  function SetText(s: seq<Comment>, id: string, text: string): (r: seq<Comment>)
    ensures |r| == |s|
  {
    if s == [] then [] else [if s[0].id == id then s[0].(text := text) else s[0]] + SetText(s[1..], id, text)
  }

  /** The list with every entry whose id carries the provisional prefix dropped. */
  function WithoutProvisional(s: seq<Comment>): (r: seq<Comment>)
    ensures |r| <= |s|
  {
    Filter(s, (c: Comment) => !IsProvisionalId(c.id))
  }

  /** The list with every entry whose id is `id` dropped. */
  function WithoutId(s: seq<Comment>, id: string): (r: seq<Comment>)
    ensures |r| <= |s|
  {
    Filter(s, (c: Comment) => c.id != id)
  }

  /** The provisional comment carries a provisional id that encodes the submit
      time, the trimmed text, the author's id, name (or "You" when the user has
      none) and avatar, and the submit time as its creation time; its author,
      and only a viewer with the author's id, sees the edit and delete controls on it. */
  lemma ProvisionalCommentShape(videoId: string, user: User, text: string, now: nat)
    ensures var c := ProvisionalComment(videoId, user, text, now);
      && IsProvisionalId(c.id)
      && IsDigits(c.id[|TEMP_PREFIX|..]) && ParseDecimal(c.id[|TEMP_PREFIX|..]) == now
      && c.text == Trim(text) && c.videoId == videoId
      && c.userId == user.id && c.username != ""
      && c.username == (if user.username == "" then DEFAULT_USERNAME else user.username)
      && c.avatar == user.avatar && c.createdAt == now
      && ShowsControls(Some(user), c)
  {
    var c := ProvisionalComment(videoId, user, text, now);
    assert c.id[|TEMP_PREFIX|..] == DecimalString(now);
    DecimalRoundTrip(now);
  }

  /** Whether a viewer sees the controls on the provisional comment depends
      only on whether the viewer has the submitting user's id. */
  lemma ProvisionalControls(viewer: Option<User>, videoId: string, user: User, text: string, now: nat)
    ensures ShowsControls(viewer, ProvisionalComment(videoId, user, text, now))
            <==> viewer.Some? && viewer.value.id == user.id
  {
  }

  /** Editing a comment's text never changes, at any position, who sees the
      edit and delete controls. */
  lemma EditKeepsControls(viewer: Option<User>, s: seq<Comment>, id: string, text: string)
    ensures forall i :: 0 <= i < |s| ==>
      ShowsControls(viewer, SetText(s, id, text)[i]) == ShowsControls(viewer, s[i])
  {
    SetTextAt(s, id, text);
  }

  /** Confirming a provisional comment with a server comment by the same author
      never changes, at any position, who sees the edit and delete controls. */
  lemma ConfirmKeepsControls(viewer: Option<User>, s: seq<Comment>, id: string, confirmed: Comment)
    requires forall c :: c in s && c.id == id ==> c.userId == confirmed.userId
    ensures forall i :: 0 <= i < |s| ==>
      ShowsControls(viewer, ReplaceById(s, id, confirmed)[i]) == ShowsControls(viewer, s[i])
  {
    ReplaceByIdAt(s, id, confirmed);
    assert forall i :: 0 <= i < |s| ==> s[i] in s;
  }

  /** Replacing by id: same length, the entries with that id become `confirmed`,
      every other entry is unchanged and in place. */
  lemma {:induction false} ReplaceByIdAt(s: seq<Comment>, id: string, confirmed: Comment)
    ensures |ReplaceById(s, id, confirmed)| == |s|
    ensures forall i :: 0 <= i < |s| ==>
      ReplaceById(s, id, confirmed)[i] == if s[i].id == id then confirmed else s[i]
    decreases |s|
  {
    if s != [] {
      ReplaceByIdAt(s[1..], id, confirmed);
    }
  }

  /** Setting text by id: same length, the entries with that id get the new text
      and keep every other field, every other entry is unchanged and in place. */
  lemma {:induction false} SetTextAt(s: seq<Comment>, id: string, text: string)
    ensures |SetText(s, id, text)| == |s|
    ensures forall i :: 0 <= i < |s| ==>
      SetText(s, id, text)[i] == if s[i].id == id then s[i].(text := text) else s[i]
    decreases |s|
  {
    if s != [] {
      SetTextAt(s[1..], id, text);
    }
  }

  /** Confirming a provisional entry whose id no other entry has yields the
      list the server's comment would have given if prepended directly. */
  lemma ConfirmAfterOptimisticInsert(s: seq<Comment>, provisional: Comment, confirmed: Comment)
    requires forall c :: c in s ==> c.id != provisional.id
    ensures ReplaceById([provisional] + s, provisional.id, confirmed) == [confirmed] + s
  {
    ReplaceByIdAt([provisional] + s, provisional.id, confirmed);
    ReplaceByIdAt(s, provisional.id, confirmed);
    assert forall i :: 0 <= i < |s| ==> s[i] in s;
  }

  /** The rollback leaves no provisional entry at all, keeps every confirmed
      entry with all of its copies, and keeps their order. */
  lemma RollbackRemovesEveryProvisional(s: seq<Comment>)
    ensures forall c :: c in WithoutProvisional(s) ==> !IsProvisionalId(c.id)
    ensures forall c: Comment :: !IsProvisionalId(c.id) ==> multiset(WithoutProvisional(s))[c] == multiset(s)[c]
    ensures IsSubsequence(WithoutProvisional(s), s)
  {
    FilterIsSubsequence(s, (c: Comment) => !IsProvisionalId(c.id));
  }

  /** When only this submission was pending, the rollback restores exactly the
      list from before the optimistic insert. */
  lemma RollbackRestoresList(s: seq<Comment>, provisional: Comment)
    requires IsProvisionalId(provisional.id)
    requires forall c :: c in s ==> !IsProvisionalId(c.id)
    ensures WithoutProvisional([provisional] + s) == s
  {
    FilterKeepsAll(s, (c: Comment) => !IsProvisionalId(c.id));
    assert ([provisional] + s)[1..] == s;
  }

  /** Delete by id removes every entry with that id, keeps every other entry
      with all of its copies, and keeps their order. */
  lemma DeleteRemovesOnlyTarget(s: seq<Comment>, id: string)
    ensures forall c :: c in WithoutId(s, id) <==> c in s && c.id != id
    ensures forall c: Comment :: c.id != id ==> multiset(WithoutId(s, id))[c] == multiset(s)[c]
    ensures IsSubsequence(WithoutId(s, id), s)
  {
    FilterIsSubsequence(s, (c: Comment) => c.id != id);
  }

  /** The state of one `Comments` component for one video. */
  class Comments {
    const videoId: string
    var comments: seq<Comment>
    var newComment: string
    var editingComment: Option<string>
    var editText: string
    var loading: bool
    /** The `isRequesting` ref: a comment fetch is outstanding. */
    var isRequesting: bool
    /** The number of comment fetches issued and not yet settled. */
    ghost var pending: nat

    /** At most one fetch is outstanding, and the flag says whether one is. */
    ghost predicate Valid()
      reads this
    {
      pending <= 1 && (isRequesting <==> pending == 1)
    }

    constructor (videoId: string)
      ensures Valid() && this.videoId == videoId
      ensures comments == [] && newComment == "" && editingComment == None && editText == ""
      ensures !loading && !isRequesting && pending == 0
    {
      this.videoId := videoId;
      comments, newComment, editingComment, editText := [], "", None, "";
      loading, isRequesting := false, false;
      pending := 0;
    }

    /** `fetchComments` up to its request: dropped while another is outstanding. */
    method BeginFetch() returns (issued: bool)
      requires Valid()
      modifies this
      ensures Valid()
      ensures issued == !old(isRequesting)
      ensures isRequesting && pending == 1
      ensures comments == old(comments) && newComment == old(newComment)
      ensures editingComment == old(editingComment) && editText == old(editText) && loading == old(loading)
    {
      if isRequesting {
        return false;
      }
      isRequesting := true;
      pending := pending + 1;
      issued := true;
    }

    /** `fetchComments` after its request settles: the server's list replaces
        the local one wholesale; a failure keeps it; the flag is cleared either way. */
    method CompleteFetch(response: Response<seq<Comment>>)
      requires Valid() && pending == 1
      modifies this
      ensures Valid() && !isRequesting && pending == 0
      ensures comments == if response.Success? then response.data else old(comments)
      ensures newComment == old(newComment) && editingComment == old(editingComment)
      ensures editText == old(editText) && loading == old(loading)
    {
      if response.Success? {
        comments := response.data;
      }
      isRequesting := false;
      pending := pending - 1;
    }

    /** Typing in the new-comment box. */
    method TypeComment(text: string)
      modifies this`newComment
      ensures newComment == text
    {
      newComment := text;
    }

    /** `handleSubmitComment` up to the create call: without a user or with blank
        text nothing happens; otherwise the provisional comment is put in front
        of the list, the box is cleared and the thread is loading. */
    method BeginSubmit(user: Option<User>, now: nat) returns (provisional: Option<Comment>)
      requires Valid()
      modifies this
      ensures Valid()
      ensures Blank(old(newComment)) || user.None? ==> provisional == None && unchanged(this)
      ensures !Blank(old(newComment)) && user.Some? ==>
        && provisional == Some(ProvisionalComment(videoId, user.value, old(newComment), now))
        && comments == [provisional.value] + old(comments)
        && newComment == "" && loading
        && editingComment == old(editingComment) && editText == old(editText)
        && isRequesting == old(isRequesting) && pending == old(pending)
    {
      var blank := Blank(newComment);
      if blank || user.None? {
        provisional := None;
      } else {
        var c := ProvisionalComment(videoId, user.value, newComment, now);
        loading := true;
        comments := [c] + comments;
        newComment := "";
        provisional := Some(c);
      }
    }

    /** `handleSubmitComment` after the create call settles. On success the entry
        with the provisional id becomes the server's comment and a re-fetch is
        requested through the guard; on failure every provisional entry is
        rolled back. Loading ends either way. */
    method CompleteSubmit(provisional: Comment, response: Response<Comment>) returns (refetchIssued: bool)
      requires Valid()
      modifies this
      ensures Valid() && !loading
      ensures response.Success? ==>
        && comments == ReplaceById(old(comments), provisional.id, response.data)
        && refetchIssued == !old(isRequesting) && isRequesting && pending == 1
      ensures response.Failure? ==>
        && comments == WithoutProvisional(old(comments))
        && !refetchIssued && isRequesting == old(isRequesting) && pending == old(pending)
      ensures newComment == old(newComment)
      ensures editingComment == old(editingComment) && editText == old(editText)
    {
      refetchIssued := false;
      if response.Success? {
        comments := ReplaceById(comments, provisional.id, response.data);
        refetchIssued := BeginFetch();
      } else {
        comments := WithoutProvisional(comments);
      }
      loading := false;
    }

    /** `startEditing`: the comment's id and current text go into edit mode. */
    method StartEditing(c: Comment)
      modifies this`editingComment, this`editText
      ensures editingComment == Some(c.id) && editText == c.text
    {
      editingComment, editText := Some(c.id), c.text;
    }

    /** `cancelEditing`. */
    method CancelEditing()
      modifies this`editingComment, this`editText
      ensures editingComment == None && editText == ""
    {
      editingComment, editText := None, "";
    }

    /** Typing in the edit box. */
    method TypeEditText(text: string)
      modifies this`editText
      ensures editText == text
    {
      editText := text;
    }

    /** `handleEditComment`: blank text does nothing; after a successful update
        only the entries with that id get the trimmed text and edit mode ends;
        after a failure nothing changes. */
    method EditComment(commentId: string, response: Response<()>)
      modifies this
      ensures Blank(old(editText)) || response.Failure? ==> unchanged(this)
      ensures !Blank(old(editText)) && response.Success? ==>
        && comments == SetText(old(comments), commentId, Trim(old(editText)))
        && editingComment == None && editText == ""
        && newComment == old(newComment) && loading == old(loading)
        && isRequesting == old(isRequesting) && pending == old(pending)
    {
      if Blank(editText) || response.Failure? {
        return;
      }
      comments := SetText(comments, commentId, Trim(editText));
      editingComment, editText := None, "";
    }

    /** `handleDeleteComment`: unless confirmed nothing is sent and nothing
        changes; after a successful delete the entries with that id are gone;
        after a failure nothing changes. */
    method DeleteComment(commentId: string, confirmed: bool, response: Response<()>)
      modifies this`comments
      ensures comments == if confirmed && response.Success? then WithoutId(old(comments), commentId)
                          else old(comments)
    {
      if confirmed && response.Success? {
        comments := WithoutId(comments, commentId);
      }
    }
  }

  /** A submit that the server accepts, starting from a list without
      provisional entries: the list becomes the server's comment followed by
      the old list, and a re-fetch is issued unless one is already outstanding. */
  method SubmitAccepted(thread: Comments, user: User, now: nat, confirmed: Comment)
      returns (refetchIssued: bool)
    requires thread.Valid() && !Blank(thread.newComment)
    requires forall c :: c in thread.comments ==> !IsProvisionalId(c.id)
    modifies thread
    ensures thread.Valid() && !thread.loading && thread.newComment == ""
    ensures thread.comments == [confirmed] + old(thread.comments)
    ensures refetchIssued == !old(thread.isRequesting)
  {
    ghost var before := thread.comments;
    var p := thread.BeginSubmit(Some(user), now);
    ProvisionalCommentShape(thread.videoId, user, old(thread.newComment), now);
    ConfirmAfterOptimisticInsert(before, p.value, confirmed);
    refetchIssued := thread.CompleteSubmit(p.value, Success(confirmed));
  }

  /** A submit that the server rejects, starting from a list without
      provisional entries: the list is exactly as before, and the box stays cleared. */
  method SubmitRejected(thread: Comments, user: User, now: nat)
    requires thread.Valid() && !Blank(thread.newComment)
    requires forall c :: c in thread.comments ==> !IsProvisionalId(c.id)
    modifies thread
    ensures thread.Valid() && !thread.loading && thread.newComment == ""
    ensures thread.comments == old(thread.comments)
  {
    var p := thread.BeginSubmit(Some(user), now);
    ProvisionalCommentShape(thread.videoId, user, old(thread.newComment), now);
    RollbackRestoresList(old(thread.comments), p.value);
    var _ := thread.CompleteSubmit(p.value, Failure);
  }
}
