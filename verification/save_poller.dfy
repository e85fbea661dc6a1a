/** The editor script: the save-completion edge detector that decides when to
    fetch the notice, and what to do with the response. Each tick is one call of
    the `subscribe` callback; the editor selectors it reads are its inputs. */
module SavePoller {
  import opened NoticeStore

  /** What the `core/editor` and `core/edit-post` selectors report on one tick. */
  datatype EditorFlags = EditorFlags(
    savingPost: bool,            // isSavingPost()
    autosaving: bool,            // isAutosavingPost()
    saveable: bool,              // isEditedPostSaveable()
    locked: bool,                // isPostSavingLocked()
    nonPostEntityChanges: bool,  // hasNonPostEntityChanges()
    savingMetaBoxes: bool,       // isSavingMetaBoxes()
    hasMetaBoxes: bool)          // hasMetaBoxes()

  /** The script's `isSavingPost()`. The save button's state drops out: the editor is
      busy saving exactly when a non-autosave save runs with no other entity changed. */
  function IsSavingPost(f: EditorFlags): (busy: bool)
    ensures busy <==> f.savingPost && !f.autosaving && !f.nonPostEntityChanges
  {
    var isSaving := f.savingPost || f.autosaving;
    var isButtonDisabled := isSaving || !f.saveable || f.locked;
    var isBusy := !f.autosaving && isSaving;
    var isNotInteractable := isButtonDisabled && !f.nonPostEntityChanges;
    isBusy && isNotInteractable
  }

  /** The script's `isSavingMetaBoxes()`, which simplifies the same way. */
  function IsSavingMetaBoxes(f: EditorFlags): (busy: bool)
    ensures busy <==> f.savingMetaBoxes && !f.autosaving && !f.nonPostEntityChanges
  {
    var isButtonDisabled := f.savingMetaBoxes || !f.saveable || f.locked;
    var isBusy := !f.autosaving && f.savingMetaBoxes;
    var isNotInteractable := isButtonDisabled && !f.nonPostEntityChanges;
    isBusy && isNotInteractable
  }

  /** `wasSaving` and `wasSavingMetaBoxes`, carried from one tick to the next. */
  datatype SaveState = SaveState(wasSaving: bool, wasSavingMetaBoxes: bool)

  /** The state when the script loads. */
  function Init(f: EditorFlags): (s: SaveState)
    ensures s.wasSaving <==> f.savingPost && !f.autosaving && !f.nonPostEntityChanges
    ensures s.wasSavingMetaBoxes <==> f.savingMetaBoxes && !f.autosaving && !f.nonPostEntityChanges
  {
    SaveState(IsSavingPost(f), IsSavingMetaBoxes(f))
  }

  /** Lines 166-169: in an editor with metaboxes, a detector armed by a post save
      stays armed until a tick on which the metaboxes have just finished saving. */
  predicate MetaBoxHold(s: SaveState, f: EditorFlags) {
    f.hasMetaBoxes && s.wasSaving && !(s.wasSavingMetaBoxes && !IsSavingMetaBoxes(f))
  }

  /** One tick: the next state, and whether `checkNotificationAfterPublish` runs. */
  datatype Tick = Tick(next: SaveState, fire: bool)

  /** The `subscribe` callback exactly as the script has it: the fetch needs the
      editor to have metaboxes, so an editor without them never fetches. */
  function SubscribeAsWritten(s: SaveState, f: EditorFlags): (t: Tick)
    ensures t.fire ==> f.hasMetaBoxes
    ensures t.fire <==> f.hasMetaBoxes && s.wasSaving && !IsSavingPost(f)
                        && s.wasSavingMetaBoxes && !IsSavingMetaBoxes(f)
    // With metaboxes, a finished post save is held until the metaboxes are saved too.
    ensures MetaBoxHold(s, f) ==> t.next.wasSaving
    ensures !MetaBoxHold(s, f) ==> t.next.wasSaving == IsSavingPost(f)
    ensures t.fire ==> !t.next.wasSaving
    ensures t.next.wasSaving ==> s.wasSaving || IsSavingPost(f)
    ensures t.next.wasSavingMetaBoxes == IsSavingMetaBoxes(f)
  {
    var hasActiveMetaBoxes := f.hasMetaBoxes;
    var isSaving := IsSavingPost(f);
    var isSavingMB := IsSavingMetaBoxes(f);
    var isDoneSaving := s.wasSaving && !isSaving;
    var isDoneSavingMetaBoxes := s.wasSavingMetaBoxes && !isSavingMB;
    var wasSaving :=
      if !hasActiveMetaBoxes || !s.wasSaving || (s.wasSaving && isDoneSavingMetaBoxes) then isSaving
      else s.wasSaving;
    Tick(SaveState(wasSaving, isSavingMB), isDoneSaving && (hasActiveMetaBoxes && isDoneSavingMetaBoxes))
  }

  /** The `subscribe` callback as its own comment describes it: fetch once the post
      save is done and, when the editor has metaboxes, once they are saved too. */
  function Subscribe(s: SaveState, f: EditorFlags): (t: Tick)
    ensures t.fire <==> s.wasSaving && !IsSavingPost(f)
                        && (f.hasMetaBoxes ==> s.wasSavingMetaBoxes && !IsSavingMetaBoxes(f))
    ensures t.fire ==> !t.next.wasSaving
    ensures t.next.wasSaving ==> s.wasSaving || IsSavingPost(f)
    ensures MetaBoxHold(s, f) ==> t.next.wasSaving
    ensures !MetaBoxHold(s, f) ==> t.next.wasSaving == IsSavingPost(f)
    ensures !f.hasMetaBoxes ==> t.next.wasSaving == IsSavingPost(f)
    ensures t.next.wasSavingMetaBoxes == IsSavingMetaBoxes(f)
  {
    var hasActiveMetaBoxes := f.hasMetaBoxes;
    var isSaving := IsSavingPost(f);
    var isSavingMB := IsSavingMetaBoxes(f);
    var isDoneSaving := s.wasSaving && !isSaving;
    var isDoneSavingMetaBoxes := s.wasSavingMetaBoxes && !isSavingMB;
    var wasSaving :=
      if !hasActiveMetaBoxes || !s.wasSaving || (s.wasSaving && isDoneSavingMetaBoxes) then isSaving
      else s.wasSaving;
    Tick(SaveState(wasSaving, isSavingMB), isDoneSaving && (!hasActiveMetaBoxes || isDoneSavingMetaBoxes))
  }

  /** The script as written moves through the same states as the corrected detector
      and fetches only on ticks where the corrected detector fetches. */
  lemma AsWrittenRefinesSubscribe(s: SaveState, f: EditorFlags)
    ensures SubscribeAsWritten(s, f).next == Subscribe(s, f).next
    ensures SubscribeAsWritten(s, f).fire ==> Subscribe(s, f).fire
  {
  }

  /** The two agree on every editor that has metaboxes. */
  lemma SubscribeAgreesWithMetaBoxes(s: SaveState, f: EditorFlags)
    requires f.hasMetaBoxes
    ensures Subscribe(s, f) == SubscribeAsWritten(s, f)
  {
  }

  /** The state before tick `i` of a run from `s`. */
  function StateAt(s: SaveState, ticks: seq<EditorFlags>, i: nat): SaveState
    requires i <= |ticks|
    decreases i
  {
    if i == 0 then s else Subscribe(StateAt(s, ticks, i - 1), ticks[i - 1]).next
  }

  /** Whether tick `i` of a run from `s` fetches the notice. */
  function FiresAt(s: SaveState, ticks: seq<EditorFlags>, i: nat): bool
    requires i < |ticks|
  {
    Subscribe(StateAt(s, ticks, i), ticks[i]).fire
  }

  /** Once disarmed, the detector re-arms only on a tick where the post is saving. */
  lemma {:induction false} ArmedOnlyBySaving(s: SaveState, ticks: seq<EditorFlags>, a: nat, b: nat)
    requires a <= b <= |ticks|
    requires !StateAt(s, ticks, a).wasSaving && StateAt(s, ticks, b).wasSaving
    ensures exists k :: a <= k < b && IsSavingPost(ticks[k])
    decreases b
  {
    if StateAt(s, ticks, b - 1).wasSaving {
      ArmedOnlyBySaving(s, ticks, a, b - 1);
    } else {
      assert IsSavingPost(ticks[b - 1]);
    }
  }

  /** One fetch per save: between two fetches the post was saving on some tick. */
  lemma OneFetchPerSave(s: SaveState, ticks: seq<EditorFlags>, i: nat, j: nat)
    requires i < j < |ticks|
    requires FiresAt(s, ticks, i) && FiresAt(s, ticks, j)
    ensures exists k :: i < k < j && IsSavingPost(ticks[k])
  {
    assert !StateAt(s, ticks, i + 1).wasSaving;
    ArmedOnlyBySaving(s, ticks, i + 1, j);
  }

  /** The state before tick `i` of a run of the script as written. */
  function StateAtAsWritten(s: SaveState, ticks: seq<EditorFlags>, i: nat): SaveState
    requires i <= |ticks|
    decreases i
  {
    if i == 0 then s else SubscribeAsWritten(StateAtAsWritten(s, ticks, i - 1), ticks[i - 1]).next
  }

  /** The script as written passes through the same states as the corrected detector. */
  lemma {:induction false} SameStatesAsWritten(s: SaveState, ticks: seq<EditorFlags>, i: nat)
    requires i <= |ticks|
    ensures StateAtAsWritten(s, ticks, i) == StateAt(s, ticks, i)
    decreases i
  {
    if i > 0 {
      SameStatesAsWritten(s, ticks, i - 1);
      AsWrittenRefinesSubscribe(StateAt(s, ticks, i - 1), ticks[i - 1]);
    }
  }

  /** Whether tick `i` of a run from `s` fetches under the script as written. */
  function FiresAtAsWritten(s: SaveState, ticks: seq<EditorFlags>, i: nat): bool
    requires i < |ticks|
  {
    SubscribeAsWritten(StateAtAsWritten(s, ticks, i), ticks[i]).fire
  }

  /** The script as written also fetches at most once per save. */
  lemma OneFetchPerSaveAsWritten(s: SaveState, ticks: seq<EditorFlags>, i: nat, j: nat)
    requires i < j < |ticks|
    requires FiresAtAsWritten(s, ticks, i) && FiresAtAsWritten(s, ticks, j)
    ensures exists k :: i < k < j && IsSavingPost(ticks[k])
  {
    SameStatesAsWritten(s, ticks, i);
    SameStatesAsWritten(s, ticks, j);
    AsWrittenRefinesSubscribe(StateAt(s, ticks, i), ticks[i]);
    AsWrittenRefinesSubscribe(StateAt(s, ticks, j), ticks[j]);
    OneFetchPerSave(s, ticks, i, j);
  }

  /** Without metaboxes the fetch fires exactly on the falling edge of `IsSavingPost`. */
  lemma NoMetaBoxesFiresOnFallingEdge(f0: EditorFlags, ticks: seq<EditorFlags>, i: nat)
    requires i < |ticks|
    requires forall k :: 0 <= k < |ticks| ==> !ticks[k].hasMetaBoxes
    ensures i == 0 ==> (FiresAt(Init(f0), ticks, i) <==> IsSavingPost(f0) && !IsSavingPost(ticks[0]))
    ensures i > 0 ==> (FiresAt(Init(f0), ticks, i) <==> IsSavingPost(ticks[i - 1]) && !IsSavingPost(ticks[i]))
  {
    if i > 0 {
      assert !ticks[i - 1].hasMetaBoxes;
    }
  }

  /** The counterexample: a plain save in an editor without metaboxes. The script
      as written never fetches; the intended detector fetches when the save ends. */
  lemma AsWrittenMissesSaveWithoutMetaBoxes()
    ensures var saving := EditorFlags(true, false, true, false, false, false, false);
            var idle := EditorFlags(false, false, true, false, false, false, false);
            var armed := Subscribe(Init(idle), saving).next;
            && armed == SubscribeAsWritten(Init(idle), saving).next
            && !SubscribeAsWritten(armed, idle).fire
            && Subscribe(armed, idle).fire
  {
  }

  /** With metaboxes, a post save followed by a metabox save fetches once, when the
      metaboxes are done. */
  lemma MetaBoxSaveFiresWhenDone()
    ensures var idle := EditorFlags(false, false, true, false, false, false, true);
            var saving := EditorFlags(true, false, true, false, false, false, true);
            var savingMB := EditorFlags(false, false, true, false, false, true, true);
            var ticks := [saving, idle, savingMB, idle];
            && !FiresAt(Init(idle), ticks, 0) && !FiresAt(Init(idle), ticks, 1)
            && !FiresAt(Init(idle), ticks, 2) && FiresAt(Init(idle), ticks, 3)
  {
  }

  const NoticeId: string := "simple-admin-notice"

  /** The notices-store dispatch the fetch callback makes. */
  datatype UiAction =
    | CreateNotice(status: string, content: string, id: string, isDismissible: bool)
    | RemoveNotice(id: string)

  /** The response handler: a truthy `response.code` (a non-empty string in
      JavaScript) shows a dismissible notice; anything else removes it. Both use the
      same notice id, so a later fetch replaces the banner instead of adding one. */
  function Dispatch(body: Response): (a: UiAction)
    ensures a.CreateNotice? <==> body.NoticeResponse? && body.code != ""
    ensures a.id == NoticeId
    ensures a.CreateNotice? ==> a.status == body.code && a.content == body.message + " " && a.isDismissible
  {
    match body
    case NoticeResponse(code, message) =>
      if |code| > 0 then CreateNotice(code, message + " ", NoticeId, true) else RemoveNotice(NoticeId)
    case Empty => RemoveNotice(NoticeId)
  }
}
