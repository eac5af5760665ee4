/** The checklist's controls and the persisted progress slot, with the two
    transfers between them: saving (controls to mapping) and loading
    (mapping onto controls). */
module Topics {

  /** One checkbox control: its `data-topic` key and its checked flag. */
  datatype Checkbox = Checkbox(topic: string, checked: bool)

  /** The storage entry under the tracker's key. `Malformed` stands for every
      read that yields no usable object: a payload that does not parse, a
      payload that parses to `null`, or a read that throws. */
  datatype Slot = Absent | Valid(progress: map<string, bool>) | Malformed

  /** How many controls are checked. */
  function CountChecked(cs: seq<Checkbox>): (n: nat)
    ensures n <= |cs|
    ensures n == |cs| <==> forall i :: 0 <= i < |cs| ==> cs[i].checked
    ensures n == 0 <==> forall i :: 0 <= i < |cs| ==> !cs[i].checked
  {
    if cs == [] then 0
    else
      var rest := CountChecked(cs[1..]);
      assert forall i :: 1 <= i < |cs| ==> cs[i] == cs[1..][i - 1];
      (if cs[0].checked then 1 else 0) + rest
  }

  /** Counting is additive over concatenation. */
  lemma {:induction false} CountCheckedAppend(a: seq<Checkbox>, b: seq<Checkbox>)
    ensures CountChecked(a + b) == CountChecked(a) + CountChecked(b)
  {
    if a != [] {
      assert (a + b)[0] == a[0];
      assert (a + b)[1..] == a[1..] + b;
      CountCheckedAppend(a[1..], b);
      var head := if a[0].checked then 1 else 0;
      assert CountChecked(a + b) == head + CountChecked(a[1..] + b);
      assert CountChecked(a) == head + CountChecked(a[1..]);
    } else {
      assert a + b == b;
    }
  }

  lemma CountCheckedSplit(a: seq<Checkbox>, b: seq<Checkbox>, c: seq<Checkbox>)
    ensures CountChecked(a + b + c) == CountChecked(a) + CountChecked(b) + CountChecked(c)
  {
    CountCheckedAppend(a + b, c);
    CountCheckedAppend(a, b);
  }

  predicate HasTopic(cs: seq<Checkbox>, topic: string) {
    exists i :: 0 <= i < |cs| && cs[i].topic == topic
  }

  predicate UniqueTopics(cs: seq<Checkbox>) {
    forall i, j :: 0 <= i < j < |cs| ==> cs[i].topic != cs[j].topic
  }

  predicate SameTopics(a: seq<Checkbox>, b: seq<Checkbox>) {
    |a| == |b| && forall i :: 0 <= i < |a| ==> a[i].topic == b[i].topic
  }

  /** The mapping the save loop builds: one entry per control, in document
      order, each assignment overwriting an earlier one for the same key. */
  function Snapshot(cs: seq<Checkbox>): map<string, bool>
  {
    if cs == [] then map[]
    else
      var last := cs[|cs| - 1];
      Snapshot(cs[..|cs| - 1])[last.topic := last.checked]
  }

  /** The saved mapping has exactly the controls' topics as keys. */
  lemma {:induction false} SnapshotKeys(cs: seq<Checkbox>, topic: string)
    ensures topic in Snapshot(cs) <==> HasTopic(cs, topic)
  {
    if cs != [] {
      var init := cs[..|cs| - 1];
      SnapshotKeys(init, topic);
      if HasTopic(init, topic) {
        var i :| 0 <= i < |init| && init[i].topic == topic;
        assert cs[i].topic == topic;
      }
      if HasTopic(cs, topic) && cs[|cs| - 1].topic != topic {
        var i :| 0 <= i < |cs| && cs[i].topic == topic;
        assert init[i].topic == topic;
      }
    }
  }

  /** A key's saved value is the checked flag of the LAST control carrying it. */
  lemma {:induction false} SnapshotLastWins(cs: seq<Checkbox>, i: nat)
    requires i < |cs|
    requires forall j :: i < j < |cs| ==> cs[j].topic != cs[i].topic
    ensures cs[i].topic in Snapshot(cs) && Snapshot(cs)[cs[i].topic] == cs[i].checked
  {
    if i < |cs| - 1 {
      var init := cs[..|cs| - 1];
      SnapshotLastWins(init, i);
    }
  }

  /** `progress[topic]` is truthy: the key is present and mapped to true. */
  predicate Marked(progress: map<string, bool>, topic: string) {
    topic in progress && progress[topic]
  }

  /** One control after the load loop has visited it. */
  function LoadOne(c: Checkbox, progress: map<string, bool>): (r: Checkbox)
    ensures r.topic == c.topic
    ensures c.checked ==> r.checked
  {
    if Marked(progress, c.topic) then c.(checked := true) else c
  }

  /** The controls after the load loop applied a parsed mapping. */
  function Applied(cs: seq<Checkbox>, progress: map<string, bool>): (r: seq<Checkbox>)
    ensures SameTopics(cs, r)
  {
    seq(|cs|, i requires 0 <= i < |cs| => LoadOne(cs[i], progress))
  }

  /** The controls after loading from a slot: only a parsed mapping has an effect. */
  function Loaded(cs: seq<Checkbox>, slot: Slot): (r: seq<Checkbox>)
    ensures SameTopics(cs, r)
  {
    match slot
    case Valid(progress) => Applied(cs, progress)
    case _ => cs
  }

  /** Every control unchecked, as the reset loop leaves them. */
  function Cleared(cs: seq<Checkbox>): (r: seq<Checkbox>)
    ensures SameTopics(cs, r)
    ensures CountChecked(r) == 0
  {
    seq(|cs|, i requires 0 <= i < |cs| => cs[i].(checked := false))
  }

  /** The control at index i after the user flips it. */
  function Flipped(cs: seq<Checkbox>, i: nat): (r: seq<Checkbox>)
    requires i < |cs|
    ensures SameTopics(cs, r)
    ensures r[i].checked == !cs[i].checked
    ensures forall j :: 0 <= j < |cs| && j != i ==> r[j] == cs[j]
  {
    cs[i := cs[i].(checked := !cs[i].checked)]
  }

  /** Loading never unchecks, and checks exactly the controls whose key is
      stored as true; all others keep their prior state. */
  lemma LoadEffect(cs: seq<Checkbox>, slot: Slot, i: nat)
    requires i < |cs|
    ensures Loaded(cs, slot)[i].checked ==
              (cs[i].checked || (slot.Valid? && Marked(slot.progress, cs[i].topic)))
    ensures cs[i].checked ==> Loaded(cs, slot)[i].checked
  {
  }

  /** Stored keys that name no control have no effect: two mappings that
      agree on the controls' topics load identically. */
  lemma LoadIgnoresUnknownKeys(cs: seq<Checkbox>, m1: map<string, bool>, m2: map<string, bool>)
    requires forall i :: 0 <= i < |cs| ==> Marked(m1, cs[i].topic) == Marked(m2, cs[i].topic)
    ensures Applied(cs, m1) == Applied(cs, m2)
  {
  }

  /** Loading the same slot twice is the same as loading it once. */
  lemma LoadIdempotent(cs: seq<Checkbox>, slot: Slot)
    ensures Loaded(Loaded(cs, slot), slot) == Loaded(cs, slot)
  {
  }

  /** Round trip: with unique topic keys, saving and then loading onto
      unchecked controls with the same topics restores every checked flag. */
  lemma SaveLoadRoundTrip(cs: seq<Checkbox>)
    requires UniqueTopics(cs)
    ensures Loaded(Cleared(cs), Valid(Snapshot(cs))) == cs
  {
    var r := Loaded(Cleared(cs), Valid(Snapshot(cs)));
    forall i | 0 <= i < |cs|
      ensures r[i] == cs[i]
    {
      SnapshotLastWins(cs, i);
    }
  }

  /** Without unique keys the round trip can fail: the later control's value
      wins for both controls sharing a key. */
  lemma SaveLoadDuplicateKey()
    ensures var cs := [Checkbox("x", true), Checkbox("x", false)];
            Snapshot(cs) == map["x" := false] &&
            Loaded(Cleared(cs), Valid(Snapshot(cs))) == Cleared(cs)
  {
    var cs := [Checkbox("x", true), Checkbox("x", false)];
    assert cs[..1] == [Checkbox("x", true)];
    assert cs[..1][..0] == [];
  }
}
