/** The roadmap tracker: its observable state as a value, one step function
    per handler, and the class whose methods run those handlers in place. */
module Tracker {
  import opened Text
  import opened Topics
  import opened Progress

  /** Everything the tracker can change or show: the controls, the storage
      slot, the session flag `completionShown`, the number of completion
      alerts shown so far, the fill width and the label text. */
  datatype State = State(
    boxes: seq<Checkbox>,
    stored: Slot,
    shown: bool,
    alerts: nat,
    fill: string,
    text: string)

  /** A `keydown` event: its modifier flags and its `key` string. */
  datatype KeyEvent = KeyEvent(ctrlKey: bool, metaKey: bool, shiftKey: bool, key: string)

  /** Ctrl+Shift+R, or Cmd+Shift+R on macOS. The key string must be exactly
      "R": a lower-case "r" or a longer name never matches. */
  predicate IsResetShortcut(e: KeyEvent)
    ensures IsResetShortcut(e) ==> e.shiftKey && e.key == "R"
    ensures !e.ctrlKey && !e.metaKey ==> !IsResetShortcut(e)
  {
    (e.ctrlKey || e.metaKey) && e.shiftKey && e.key == "R"
  }

  /** `loadProgress`: applies the stored mapping onto the controls. */
  function AfterLoad(s: State): (r: State)
    ensures r == s.(boxes := r.boxes) && SameTopics(s.boxes, r.boxes)
  {
    s.(boxes := Loaded(s.boxes, s.stored))
  }

  /** `saveProgress`: overwrites the slot with the controls' mapping, unless
      the storage write fails (`writable` false), which is caught. */
  function AfterSave(s: State, writable: bool): (r: State)
    ensures r == s.(stored := r.stored)
    ensures r.stored == if writable then Valid(Snapshot(s.boxes)) else s.stored
  {
    if writable then s.(stored := Valid(Snapshot(s.boxes))) else s
  }

  /** `showCompletionMessage`: alerts once and sets the session flag. */
  function AfterCompletion(s: State): (r: State)
    ensures r.shown
    ensures r.alerts == s.alerts + (if s.shown then 0 else 1)
    ensures r == s.(shown := r.shown, alerts := r.alerts)
  {
    if s.shown then s else s.(alerts := s.alerts + 1, shown := true)
  }

  /** The percentage `updateProgress` computes from the live controls. */
  function PercentOf(cs: seq<Checkbox>): (p: nat)
    ensures p <= 100
  {
    Percentage(CountChecked(cs), |cs|)
  }

  /** `updateProgress`: redraws fill and label, and calls for the completion
      message when the percentage is exactly 100. */
  function AfterUpdate(s: State): (r: State)
    ensures r.boxes == s.boxes && r.stored == s.stored
    ensures r.fill == FillWidth(PercentOf(s.boxes))
    ensures r.text == Label(PercentOf(s.boxes), CountChecked(s.boxes), |s.boxes|)
    ensures r.shown == (s.shown || PercentOf(s.boxes) == 100)
    ensures r.alerts == s.alerts + (if !s.shown && PercentOf(s.boxes) == 100 then 1 else 0)
  {
    var completed := CountChecked(s.boxes);
    var p := Percentage(completed, |s.boxes|);
    var drawn := s.(fill := FillWidth(p), text := Label(p, completed, |s.boxes|));
    if p == 100 then AfterCompletion(drawn) else drawn
  }

  /** The `change` handler after the user flips control i: save, then update. */
  function AfterChange(s: State, i: nat, writable: bool): (r: State)
    requires i < |s.boxes|
    ensures r.boxes == Flipped(s.boxes, i)
  {
    AfterUpdate(AfterSave(s.(boxes := Flipped(s.boxes, i)), writable))
  }

  /** `resetProgress`: when confirmed, removes the slot, unchecks every
      control, updates the display and then clears the session flag.
      `removable` says whether `localStorage.removeItem` succeeds; it is not
      inside a `try`, so when it throws the rest of the method never runs. */
  function AfterReset(s: State, confirmed: bool, removable: bool): (r: State)
    ensures SameTopics(s.boxes, r.boxes)
    ensures !(confirmed && removable) ==> r == s
  {
    if confirmed && removable then
      AfterUpdate(s.(stored := Absent, boxes := Cleared(s.boxes))).(shown := false)
    else s
  }

  /** The `keydown` listener: the shortcut runs a reset when a tracker exists. */
  function AfterKeyDown(s: State, e: KeyEvent, confirmed: bool, removable: bool): (r: State)
    ensures !IsResetShortcut(e) ==> r == s
    ensures IsResetShortcut(e) ==> r == AfterReset(s, confirmed, removable)
  {
    if IsResetShortcut(e) then AfterReset(s, confirmed, removable) else s
  }

  /** Construction on page load: `init` loads, then updates. The fill and
      label start empty and are always overwritten by the first update. */
  function Initial(cs: seq<Checkbox>, slot: Slot): (r: State)
    ensures r.stored == slot && SameTopics(cs, r.boxes)
  {
    AfterUpdate(AfterLoad(State(cs, slot, false, 0, "", "")))
  }

  /** The events a tracker reacts to after construction. `writable` and
      `removable` say whether the storage write or removal succeeds;
      `confirmed` is the user's answer to the confirmation prompt. */
  datatype Event =
    | Toggle(index: nat, writable: bool)
    | ResetCall(confirmed: bool, removable: bool)
    | Key(e: KeyEvent, confirmed: bool, removable: bool)

  predicate Applicable(n: nat, e: Event) {
    e.Toggle? ==> e.index < n
  }

  function AfterEvent(s: State, e: Event): (r: State)
    requires Applicable(|s.boxes|, e)
    ensures SameTopics(s.boxes, r.boxes)
  {
    match e
    case Toggle(i, w) => AfterChange(s, i, w)
    case ResetCall(c, rm) => AfterReset(s, c, rm)
    case Key(k, c, rm) => AfterKeyDown(s, k, c, rm)
  }

  predicate AllApplicable(n: nat, evs: seq<Event>) {
    forall k :: 0 <= k < |evs| ==> Applicable(n, evs[k])
  }

  function Run(s: State, evs: seq<Event>): (r: State)
    requires AllApplicable(|s.boxes|, evs)
    ensures SameTopics(s.boxes, r.boxes)
    decreases |evs|
  {
    if evs == [] then s
    else
      var s1 := AfterEvent(s, evs[0]);
      assert AllApplicable(|s1.boxes|, evs[1..]) by {
        forall k | 0 <= k < |evs| - 1 ensures Applicable(|s1.boxes|, evs[1..][k]) {
          assert evs[1..][k] == evs[k + 1];
        }
      }
      Run(s1, evs[1..])
  }

  /** A reset that actually happens: confirmed, the removal succeeds, and by
      shortcut only when the keys match. */
  predicate ConfirmsReset(e: Event) {
    match e
    case Toggle(_, _) => false
    case ResetCall(c, rm) => c && rm
    case Key(k, c, rm) => c && rm && IsResetShortcut(k)
  }

  // ---------------------------------------------------------------------
  // Properties

  /** The label and fill always show the live controls' summary. */
  lemma UpdateShowsSummary(s: State)
    ensures var r := AfterUpdate(s);
            ParseLabel(r.text) == Some((PercentOf(s.boxes), CountChecked(s.boxes), |s.boxes|)) &&
            ParseFillWidth(r.fill) == Some(PercentOf(s.boxes))
  {
    LabelRoundTrip(PercentOf(s.boxes), CountChecked(s.boxes), |s.boxes|);
    FillWidthRoundTrip(PercentOf(s.boxes));
  }

  /** Updating twice shows the same as updating once, and alerts no more. */
  lemma UpdateIdempotent(s: State)
    ensures AfterUpdate(AfterUpdate(s)) == AfterUpdate(s)
  {
  }

  /** The completion alert can fire with a topic still unchecked: on a page
      of 200 or more topics with all but one checked. */
  lemma AlertWithTopicLeft(s: State, j: nat)
    requires |s.boxes| >= 200 && !s.shown && j < |s.boxes|
    requires forall i :: 0 <= i < |s.boxes| ==> s.boxes[i].checked == (i != j)
    ensures CountChecked(s.boxes) < |s.boxes|
    ensures AfterUpdate(s).alerts == s.alerts + 1
  {
    var cs := s.boxes;
    assert CountChecked(cs) == |cs| - 1 by {
      var left, right := cs[..j], cs[j + 1..];
      assert cs == left + [cs[j]] + right;
      CountCheckedSplit(left, [cs[j]], right);
      assert CountChecked([cs[j]]) == 0;
    }
    HundredWithOneLeft(|cs|);
  }

  /** On a page of fewer than 200 topics the alert needs every topic checked. */
  lemma AlertOnSmallPage(s: State)
    requires |s.boxes| < 200 && !s.shown
    ensures AfterUpdate(s).alerts == s.alerts + 1 <==>
              (|s.boxes| > 0 && forall i :: 0 <= i < |s.boxes| ==> s.boxes[i].checked)
  {
    if |s.boxes| > 0 {
      HundredMeansAllOnSmallPages(CountChecked(s.boxes), |s.boxes|);
    }
  }

  /** A toggle persists the full control state before the display is redrawn,
      so afterwards the slot holds exactly the live controls' mapping. */
  lemma ChangePersists(s: State, i: nat)
    requires i < |s.boxes|
    ensures AfterChange(s, i, true).stored == Valid(Snapshot(AfterChange(s, i, true).boxes))
  {
  }

  /** A declined reset changes nothing, whether called directly or by the
      shortcut. */
  lemma DeclinedResetIsNoOp(s: State, e: KeyEvent, removable: bool)
    ensures AfterReset(s, false, removable) == s && AfterKeyDown(s, e, false, removable) == s
  {
  }

  /** A confirmed reset whose storage removal throws changes nothing either:
      the exception leaves before the controls, display or flag are touched. */
  lemma FailedResetIsNoOp(s: State, e: KeyEvent)
    ensures AfterReset(s, true, false) == s && AfterKeyDown(s, e, true, false) == s
  {
  }

  /** A confirmed reset removes the slot, unchecks every control, shows 0%
      without alerting, and leaves the session flag cleared. */
  lemma ConfirmedReset(s: State)
    ensures var r := AfterReset(s, true, true);
            r.stored == Absent && r.boxes == Cleared(s.boxes) &&
            (forall i :: 0 <= i < |r.boxes| ==> !r.boxes[i].checked) &&
            PercentOf(r.boxes) == 0 && r.fill == FillWidth(0) &&
            r.text == Label(0, 0, |s.boxes|) &&
            r.alerts == s.alerts && !r.shown
  {
    var cleared := Cleared(s.boxes);
    PercentageZero(|cleared|);
    assert PercentOf(cleared) == 0;
  }

  /** After a confirmed reset, a reload applies nothing: whatever controls
      the reloaded page has keep their state. */
  lemma ReloadAfterReset(s: State, cs: seq<Checkbox>)
    ensures Initial(cs, AfterReset(s, true, true).stored).boxes == cs
  {
  }

  /** After a confirmed reset the alert fires again: the first toggle since
      the reset that brings the page to 100% (the flag still clear) adds
      exactly one alert, whatever happened before the reset. */
  lemma AlertAgainAfterReset(s: State, evs: seq<Event>, i: nat, writable: bool)
    requires AllApplicable(|AfterReset(s, true, true).boxes|, evs)
    requires forall k :: 0 <= k < |evs| ==> !ConfirmsReset(evs[k])
    requires var t := Run(AfterReset(s, true, true), evs);
             !t.shown && i < |t.boxes| && PercentOf(Flipped(t.boxes, i)) == 100
    ensures AfterChange(Run(AfterReset(s, true, true), evs), i, writable).alerts == s.alerts + 1
  {
    ConfirmedReset(s);
    AlertAtMostOnce(AfterReset(s, true, true), evs);
  }

  /** Every event adds one alert exactly when it turns the session flag on. */
  lemma EventAlerts(s: State, e: Event)
    requires Applicable(|s.boxes|, e)
    ensures var r := AfterEvent(s, e);
            r.alerts == s.alerts + (if !s.shown && r.shown then 1 else 0)
    ensures !ConfirmsReset(e) ==> (s.shown ==> AfterEvent(s, e).shown)
  {
  }

  /** Without a confirmed reset the alert fires at most once over any run of
      events, and never again once it has been shown. */
  lemma {:induction false} AlertAtMostOnce(s: State, evs: seq<Event>)
    requires AllApplicable(|s.boxes|, evs)
    requires forall k :: 0 <= k < |evs| ==> !ConfirmsReset(evs[k])
    ensures var r := Run(s, evs);
            r.alerts == s.alerts + (if !s.shown && r.shown then 1 else 0) &&
            (s.shown ==> r.shown)
    decreases |evs|
  {
    if evs != [] {
      var s1 := AfterEvent(s, evs[0]);
      EventAlerts(s, evs[0]);
      assert AllApplicable(|s1.boxes|, evs[1..]) by {
        forall k | 0 <= k < |evs| - 1 ensures Applicable(|s1.boxes|, evs[1..][k]) {
          assert evs[1..][k] == evs[k + 1];
        }
      }
      forall k | 0 <= k < |evs| - 1 ensures !ConfirmsReset(evs[1..][k]) {
        assert evs[1..][k] == evs[k + 1];
      }
      AlertAtMostOnce(s1, evs[1..]);
    }
  }

  /** If the stored payload is missing or unusable, construction changes no
      control and the display summarises the controls as given. */
  lemma InitWithoutProgress(cs: seq<Checkbox>, slot: Slot)
    requires slot == Absent || slot == Malformed
    ensures Initial(cs, slot).boxes == cs
    ensures Initial(cs, slot).text == Label(PercentOf(cs), CountChecked(cs), |cs|)
  {
  }

  /** Construction alerts exactly when the loaded controls show 100%. */
  lemma InitAlerts(cs: seq<Checkbox>, slot: Slot)
    ensures var r := Initial(cs, slot);
            r.alerts == (if PercentOf(r.boxes) == 100 then 1 else 0) && r.shown == (r.alerts == 1)
  {
  }

  /** Reload round trip: with unique topic keys, a page whose controls start
      unchecked and loads what the last successful save wrote comes back with
      exactly the configuration that was saved. */
  lemma ReloadRestoresSaved(s: State)
    requires UniqueTopics(s.boxes)
    ensures Initial(Cleared(s.boxes), AfterSave(s, true).stored).boxes == s.boxes
  {
    SaveLoadRoundTrip(s.boxes);
  }

  // ---------------------------------------------------------------------
  // The class

  /** `PythonRoadmapTracker`: holds the page's controls, the storage slot, the
      session flag and the display, and runs the handlers in place. */
  class RoadmapTracker {
    const boxes: array<Checkbox>
    var stored: Slot
    var completionShown: bool
    var alerts: nat
    var fillWidth: string
    var progressText: string

    function Abs(): State
      reads this, boxes
    {
      State(boxes[..], stored, completionShown, alerts, fillWidth, progressText)
    }

    /** Takes the page's controls and the storage slot, then runs `init`. */
    constructor (controls: array<Checkbox>, slot: Slot)
      modifies controls
      ensures boxes == controls
      ensures Abs() == Initial(old(controls[..]), slot)
    {
      boxes := controls;
      stored := slot;
      completionShown := false;
      alerts := 0;
      fillWidth := "";
      progressText := "";
      new;
      LoadProgress();
      UpdateProgress();
    }

    method LoadProgress()
      modifies boxes
      ensures Abs() == AfterLoad(old(Abs()))
    {
      if stored.Valid? {
        var progress := stored.progress;
        for i := 0 to boxes.Length
          invariant forall j :: 0 <= j < i ==> boxes[j] == LoadOne(old(boxes[j]), progress)
          invariant forall j :: i <= j < boxes.Length ==> boxes[j] == old(boxes[j])
        {
          if Marked(progress, boxes[i].topic) {
            boxes[i] := boxes[i].(checked := true);
          }
        }
      }
      assert boxes[..] == Loaded(old(boxes[..]), stored);
    }

    method SaveProgress(writable: bool)
      modifies this`stored
      ensures Abs() == AfterSave(old(Abs()), writable)
    {
      var progress := map[];
      for i := 0 to boxes.Length
        invariant progress == Snapshot(boxes[..i])
      {
        assert boxes[..i + 1][..i] == boxes[..i];
        progress := progress[boxes[i].topic := boxes[i].checked];
      }
      assert boxes[..boxes.Length] == boxes[..];
      if writable {
        stored := Valid(progress);
      }
    }

    /** The handler bound to every control's `change` event; index names the
        control the browser has just flipped. */
    method OnChange(index: nat, writable: bool)
      requires index < boxes.Length
      modifies boxes, this`stored, this`completionShown, this`alerts, this`fillWidth, this`progressText
      ensures Abs() == AfterChange(old(Abs()), index, writable)
    {
      boxes[index] := boxes[index].(checked := !boxes[index].checked);
      SaveProgress(writable);
      UpdateProgress();
    }

    method UpdateProgress()
      modifies this`completionShown, this`alerts, this`fillWidth, this`progressText
      ensures Abs() == AfterUpdate(old(Abs()))
    {
      var totalItems := boxes.Length;
      var completedItems := CountChecked(boxes[..]);
      var percentage := Percentage(completedItems, totalItems);
      fillWidth := FillWidth(percentage);
      progressText := Label(percentage, completedItems, totalItems);
      if percentage == 100 {
        ShowCompletionMessage();
      }
    }

    method ShowCompletionMessage()
      modifies this`completionShown, this`alerts
      ensures Abs() == AfterCompletion(old(Abs()))
    {
      if !completionShown {
        alerts := alerts + 1;
        completionShown := true;
      }
    }

    /** `threw` reports that `removeItem` raised an exception, which leaves
        the method at once and propagates to the caller. */
    method ResetProgress(confirmed: bool, removable: bool) returns (threw: bool)
      modifies boxes, this`stored, this`completionShown, this`alerts, this`fillWidth, this`progressText
      ensures threw == (confirmed && !removable)
      ensures Abs() == AfterReset(old(Abs()), confirmed, removable)
    {
      threw := false;
      if confirmed {
        if !removable {
          threw := true;
          return;
        }
        stored := Absent;
        for i := 0 to boxes.Length
          invariant forall j :: 0 <= j < i ==> boxes[j] == old(boxes[j]).(checked := false)
          invariant forall j :: i <= j < boxes.Length ==> boxes[j] == old(boxes[j])
          invariant stored == Absent && completionShown == old(completionShown) && alerts == old(alerts)
          invariant fillWidth == old(fillWidth) && progressText == old(progressText)
        {
          boxes[i] := boxes[i].(checked := false);
        }
        assert boxes[..] == Cleared(old(boxes[..]));
        ghost var mid := Abs();
        assert mid == old(Abs()).(stored := Absent, boxes := Cleared(old(boxes[..])));
        UpdateProgress();
        assert Abs() == AfterUpdate(mid);
        completionShown := false;
      }
    }
  }

  /** The document's `keydown` listener. `tracker` is the global tracker, null
      before the page has loaded. `prevented` says whether the browser's own
      handling of the key was suppressed, which happens before the reset, and
      `threw` whether the reset's storage removal raised an exception. */
  method OnKeyDown(tracker: RoadmapTracker?, e: KeyEvent, confirmed: bool, removable: bool)
    returns (prevented: bool, threw: bool)
    modifies if tracker == null then {} else {tracker, tracker.boxes}
    ensures prevented == IsResetShortcut(e)
    ensures threw == (prevented && tracker != null && confirmed && !removable)
    ensures tracker != null ==> tracker.Abs() == AfterKeyDown(old(tracker.Abs()), e, confirmed, removable)
  {
    prevented := IsResetShortcut(e);
    threw := false;
    if prevented && tracker != null {
      threw := tracker.ResetProgress(confirmed, removable);
    }
  }
}
