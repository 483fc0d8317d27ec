/**
 * The challenge manager page: the target total and percentage shown for each challenge, the
 * lookup of the user's progress entry, and the create / edit form.
 */
module ChallengesPage {
  import opened Wrappers

  /** A challenge as the client receives it; the integer and text columns may be null. */
  datatype Challenge = Challenge(
    id: int, title: Option<string>, description: Option<string>, ctype: string,
    targetValue: Option<int>, targetMinutes: Option<int>,
    startDate: Option<string>, endDate: Option<string>)

  /** A progress entry; its `challenge` may be missing. */
  datatype ProgressEntry = ProgressEntry(challengeId: Option<int>, currentValue: Option<int>)

  /** The target the bar is measured against: minutes for HOURS challenges, the value
      otherwise. */
  function TargetTotal(ch: Challenge): Option<int> {
    if ch.ctype == "HOURS" then ch.targetMinutes else ch.targetValue
  }

  /** `Math.round(v / t * 100)` for `t > 0`: round half up of `100 v / t`. */
  function RoundedPercent(value: int, total: int): int
    requires total > 0
  {
    (200 * value + total) / (2 * total)
  }

  /** `RoundedPercent` is the integer nearest to `100 v / t`, halves going up. */
  lemma RoundedPercentIsNearest(value: int, total: int)
    requires total > 0
    ensures 2 * total * RoundedPercent(value, total) <= 200 * value + total
    ensures 200 * value + total < 2 * total * (RoundedPercent(value, total) + 1)
  {
    var q := RoundedPercent(value, total);
    var a := 200 * value + total;
    assert a == (2 * total) * q + a % (2 * total);
  }

  /** The percentage shown: 0 without a positive total, else the rounded percentage capped at
      100. */
  function Percent(value: int, total: Option<int>): int {
    if total.Some? && total.value > 0 then
      var p := RoundedPercent(value, total.value);
      if p < 100 then p else 100
    else 0
  }

  lemma MulMonotone(a: int, b: int, c: int)
    requires a > 0 && b <= c
    ensures a * b <= a * c
  {
  }

  lemma RoundedPercentMonotone(v: int, w: int, total: int)
    requires total > 0 && v <= w
    ensures RoundedPercent(v, total) <= RoundedPercent(w, total)
  {
    RoundedPercentIsNearest(v, total);
    RoundedPercentIsNearest(w, total);
    var p, q := RoundedPercent(v, total), RoundedPercent(w, total);
    if p > q {
      MulMonotone(2 * total, q + 1, p);
    }
  }

  /** The rounded percentage reaches `k` exactly when `200 v + t` reaches `2 t k`. */
  lemma RoundedPercentAtLeast(value: int, total: int, k: int)
    requires total > 0
    ensures RoundedPercent(value, total) >= k <==> 200 * value + total >= 2 * total * k
  {
    RoundedPercentIsNearest(value, total);
    var p := RoundedPercent(value, total);
    if p >= k {
      MulMonotone(2 * total, k, p);
    } else {
      MulMonotone(2 * total, p + 1, k);
    }
  }

  /** For a non-negative value the percentage lies in 0..100, it grows with the value, and it is
      100 exactly when the value reaches 99.5% of a positive total. */
  lemma PercentBounds(value: int, v2: int, total: Option<int>)
    requires value >= 0
    ensures 0 <= Percent(value, total) <= 100
    ensures value <= v2 ==> Percent(value, total) <= Percent(v2, total)
    ensures total.Some? && total.value > 0 ==>
              (Percent(value, total) == 100 <==> 200 * value >= 199 * total.value)
    ensures !(total.Some? && total.value > 0) ==> Percent(value, total) == 0
  {
    if total.Some? && total.value > 0 {
      var t := total.value;
      if value <= v2 {
        RoundedPercentMonotone(value, v2, t);
      }
      RoundedPercentAtLeast(value, t, 0);
      RoundedPercentAtLeast(value, t, 100);
    }
  }

  /** The progress bar colour: green below 100%, blue at 100%. */
  function BarColor(percent: int): (c: string)
    ensures c == "bg-blue-600" <==> percent >= 100
  {
    if percent < 100 then "bg-green-500" else "bg-blue-600"
  }

  /** `getProgressFor`: the first entry whose challenge has this id. */
  function GetProgressFor(progress: seq<ProgressEntry>, challengeId: int): Option<ProgressEntry>
    decreases |progress|
  {
    if progress == [] then None
    else if progress[0].challengeId == Some(challengeId) then Some(progress[0])
    else GetProgressFor(progress[1..], challengeId)
  }

  /** The lookup finds an entry exactly when one matches, and then the first of them. */
  lemma {:induction false} GetProgressForIsFirst(progress: seq<ProgressEntry>, challengeId: int)
    ensures GetProgressFor(progress, challengeId).None? <==>
              forall i :: 0 <= i < |progress| ==> progress[i].challengeId != Some(challengeId)
    ensures GetProgressFor(progress, challengeId).Some? ==>
              exists i :: 0 <= i < |progress| && progress[i] == GetProgressFor(progress, challengeId).value
                          && progress[i].challengeId == Some(challengeId)
                          && forall j :: 0 <= j < i ==> progress[j].challengeId != Some(challengeId)
    decreases |progress|
  {
    if progress != [] && progress[0].challengeId != Some(challengeId) {
      GetProgressForIsFirst(progress[1..], challengeId);
      assert forall i :: 1 <= i < |progress| ==> progress[i] == progress[1..][i - 1];
      if GetProgressFor(progress, challengeId).Some? {
        var i :| 0 <= i < |progress[1..]| && progress[1..][i] == GetProgressFor(progress, challengeId).value
                 && progress[1..][i].challengeId == Some(challengeId)
                 && forall j :: 0 <= j < i ==> progress[1..][j].challengeId != Some(challengeId);
        assert progress[i + 1] == progress[1..][i];
      }
    } else if progress != [] {
      assert progress[0] == GetProgressFor(progress, challengeId).value;
    }
  }

  /** The value and percentage shown for one challenge: the matching entry's current value,
      0 without one. */
  function Shown(ch: Challenge, progress: seq<ProgressEntry>): (int, int) {
    var entry := GetProgressFor(progress, ch.id);
    var value := if entry.Some? then entry.value.currentValue.GetOr(0) else 0;
    (value, Percent(value, TargetTotal(ch)))
  }

  /** A challenge without progress is shown at 0 of its total and 0%. */
  lemma ShownWithoutProgress(ch: Challenge, progress: seq<ProgressEntry>)
    requires forall i :: 0 <= i < |progress| ==> progress[i].challengeId != Some(ch.id)
    ensures Shown(ch, progress) == (0, 0)
  {
    GetProgressForIsFirst(progress, ch.id);
  }

  /** A form field holds text, a number, or null. */
  datatype FieldValue = Text(s: string) | Number(n: int) | Null

  const FieldNames: set<string> :=
    {"title", "description", "type", "targetValue", "targetMinutes", "startDate", "endDate"}

  /** The empty form of `resetForm`. */
  const EmptyForm: map<string, FieldValue> := map[
    "title" := Text(""), "description" := Text(""), "type" := Text("STREAK"),
    "targetValue" := Number(0), "targetMinutes" := Number(0),
    "startDate" := Text(""), "endDate" := Text("")]

  function TextOrNull(s: Option<string>): FieldValue {
    if s.Some? then Text(s.value) else Null
  }

  /** The form filled from a challenge for editing; missing targets become 0. */
  function Prefill(ch: Challenge): (f: map<string, FieldValue>)
    ensures f.Keys == FieldNames
    ensures f["targetValue"].Number? && f["targetMinutes"].Number?
    ensures f["targetValue"].n == 0 <==> ch.targetValue.GetOr(0) == 0
    ensures f["type"] == Text(ch.ctype)
  {
    map["title" := TextOrNull(ch.title), "description" := TextOrNull(ch.description),
        "type" := Text(ch.ctype),
        "targetValue" := Number(ch.targetValue.GetOr(0)), "targetMinutes" := Number(ch.targetMinutes.GetOr(0)),
        "startDate" := TextOrNull(ch.startDate), "endDate" := TextOrNull(ch.endDate)]
  }

  class Form {
    var form: map<string, FieldValue>
    var editingId: Option<int>

    ghost predicate Valid()
      reads this
    {
      form.Keys == FieldNames
    }

    constructor ()
      ensures Valid() && form == EmptyForm && editingId == None
    {
      form := EmptyForm;
      editingId := None;
    }

    /** `handleInputChange`: the named field takes the input's text; the inputs are the
        form's own fields. */
    method HandleInputChange(name: string, value: string)
      requires Valid() && name in FieldNames
      modifies this
      ensures Valid() && form == old(form)[name := Text(value)] && editingId == old(editingId)
      ensures forall k :: k in form && k != name ==> form[k] == old(form)[k]
    {
      form := form[name := Text(value)];
    }

    method ResetForm()
      modifies this
      ensures Valid() && form == EmptyForm && editingId == old(editingId)
    {
      form := EmptyForm;
    }

    /** The Edit button: this challenge is being edited, with the form filled from it. */
    method StartEdit(ch: Challenge)
      modifies this
      ensures Valid() && editingId == Some(ch.id) && form == Prefill(ch)
    {
      editingId := Some(ch.id);
      form := Prefill(ch);
    }

    /** `handleCreate`: the form is posted; only once the post has succeeded is it cleared. A
        rejected post leaves the form as it was. */
    method HandleCreate(succeeded: bool) returns (posted: map<string, FieldValue>)
      modifies this
      ensures posted == old(form) && editingId == old(editingId)
      ensures succeeded ==> form == EmptyForm && Valid()
      ensures !succeeded ==> form == old(form)
    {
      posted := form;
      if succeeded {
        ResetForm();
      }
    }

    /** `handleUpdate`: the form is sent for the challenge; only once the put has succeeded does
        editing end and the form clear. A rejected put changes nothing. */
    method HandleUpdate(id: int, succeeded: bool) returns (posted: (int, map<string, FieldValue>))
      modifies this
      ensures posted == (id, old(form))
      ensures succeeded ==> form == EmptyForm && editingId == None && Valid()
      ensures !succeeded ==> form == old(form) && editingId == old(editingId)
    {
      posted := (id, form);
      if succeeded {
        editingId := None;
        ResetForm();
      }
    }
  }
}
