/**
 * The option-list editor and end-time picker that the two poll-creation pages
 * (`app/page.tsx` and `app/create/page.tsx`) define identically: appending a
 * blank option, removing one, editing one, dropping blank options on submit,
 * and generating the picker's half-hour labels.
 */
module PollEditor {
  import opened JsStrings
  import opened TimeSlots

  const MinOptions: nat := 2
  const MaxOptions: nat := 5

  /** The option list a fresh form starts with: two empty entries. */
  const InitialOptions: seq<string> := ["", ""]

  /** The bounds the editor keeps the option list within. */
  predicate InBounds(options: seq<string>) {
    MinOptions <= |options| <= MaxOptions
  }

  /**
   * `[...options, ""]` when `options.length < 5`, the list unchanged otherwise:
   * the part of `addOption` both pages share.
   */
  function AppendBlank(options: seq<string>): (r: seq<string>)
    ensures |options| < MaxOptions ==> |r| == |options| + 1 && r[..|options|] == options && r[|options|] == ""
    ensures |options| >= MaxOptions ==> r == options
  {
    if |options| < MaxOptions then options + [""] else options
  }

  /**
   * `removeOption(index)`: when the list holds more than two entries, a copy
   * with `splice(index, 1)` applied; a `splice` that starts past the end
   * removes nothing.
   */
  function RemoveOption(options: seq<string>, index: nat): (r: seq<string>)
    ensures |options| > MinOptions && index < |options| ==>
              |r| == |options| - 1
              && (forall k :: 0 <= k < index ==> r[k] == options[k])
              && (forall k :: index <= k < |r| ==> r[k] == options[k + 1])
    ensures |options| <= MinOptions || index >= |options| ==> r == options
  {
    if |options| > MinOptions && index < |options| then options[..index] + options[index + 1..] else options
  }

  /** `handleOptionChange(index, value)`: a copy with entry `index` replaced by `value`. */
  function ChangeOption(options: seq<string>, index: nat, value: string): (r: seq<string>)
    requires index < |options|
    ensures |r| == |options| && r[index] == value
    ensures forall k :: 0 <= k < |options| && k != index ==> r[k] == options[k]
  {
    options[index := value]
  }

  /** Appending a blank option keeps the list within bounds. */
  lemma AppendBlankKeepsBounds(options: seq<string>)
    requires InBounds(options)
    ensures InBounds(AppendBlank(options))
  {
  }

  /** Removing an option keeps the list within bounds. */
  lemma RemoveOptionKeepsBounds(options: seq<string>, index: nat)
    requires InBounds(options)
    ensures InBounds(RemoveOption(options, index))
  {
  }

  /** `s.filter(keep)`: the elements that pass `keep`, in order. */
  function Filter<T>(s: seq<T>, keep: T -> bool): (r: seq<T>)
    ensures |r| <= |s|
  {
    if |s| == 0 then []
    else if keep(s[0]) then [s[0]] + Filter(s[1..], keep)
    else Filter(s[1..], keep)
  }

  /** Every index in `s` shifted up by one. */
  function Shift(s: seq<nat>): (r: seq<nat>)
    ensures |r| == |s| && forall k :: 0 <= k < |s| ==> r[k] == s[k] + 1
  {
    if |s| == 0 then [] else [s[0] + 1] + Shift(s[1..])
  }

  /** The positions of the elements `Filter(s, keep)` keeps, in order. */
  function KeptIndices<T>(s: seq<T>, keep: T -> bool): seq<nat> {
    if |s| == 0 then []
    else if keep(s[0]) then [0] + Shift(KeptIndices(s[1..], keep))
    else Shift(KeptIndices(s[1..], keep))
  }

  /** Element `k` of the filtered sequence is the element at position `KeptIndices(s, keep)[k]`. */
  lemma {:induction false} KeptIndicesMatch<T>(s: seq<T>, keep: T -> bool)
    ensures |KeptIndices(s, keep)| == |Filter(s, keep)|
    ensures forall k :: 0 <= k < |KeptIndices(s, keep)| ==>
              KeptIndices(s, keep)[k] < |s| && Filter(s, keep)[k] == s[KeptIndices(s, keep)[k]]
  {
    if |s| > 0 {
      var tail := s[1..];
      KeptIndicesMatch(tail, keep);
      var ti, tf := KeptIndices(tail, keep), Filter(tail, keep);
      var h := if keep(s[0]) then 1 else 0;
      var idx, r := KeptIndices(s, keep), Filter(s, keep);
      assert idx == (if keep(s[0]) then [0] else []) + Shift(ti);
      assert r == (if keep(s[0]) then [s[0]] else []) + tf;
      forall k | 0 <= k < |idx|
        ensures idx[k] < |s| && r[k] == s[idx[k]]
      {
        if k >= h {
          assert idx[k] == ti[k - h] + 1 && r[k] == tf[k - h];
          assert tail[ti[k - h]] == s[ti[k - h] + 1];
        }
      }
    }
  }

  predicate StrictlyIncreasing(s: seq<nat>) {
    forall k, l :: 0 <= k < l < |s| ==> s[k] < s[l]
  }

  /** Shifting keeps positions increasing, and leaves room for position 0 in front. */
  lemma ShiftKeepsIncreasing(s: seq<nat>)
    requires StrictlyIncreasing(s)
    ensures StrictlyIncreasing(Shift(s)) && StrictlyIncreasing([0] + Shift(s))
  {
    var t := Shift(s);
    var u := [0] + t;
    forall k, l | 0 <= k < l < |u|
      ensures u[k] < u[l]
    {
      assert u[l] == t[l - 1];
      if k > 0 {
        assert u[k] == t[k - 1];
      }
    }
  }

  /** The kept positions are strictly increasing. */
  lemma {:induction false} KeptIndicesIncreasing<T>(s: seq<T>, keep: T -> bool)
    ensures StrictlyIncreasing(KeptIndices(s, keep))
  {
    if |s| > 0 {
      KeptIndicesIncreasing(s[1..], keep);
      ShiftKeepsIncreasing(KeptIndices(s[1..], keep));
    }
  }

  /** Only positions whose element passes `keep` are kept. */
  lemma {:induction false} KeptIndicesSound<T>(s: seq<T>, keep: T -> bool)
    ensures forall k :: 0 <= k < |KeptIndices(s, keep)| ==>
              KeptIndices(s, keep)[k] < |s| && keep(s[KeptIndices(s, keep)[k]])
  {
    if |s| > 0 {
      var tail := s[1..];
      KeptIndicesSound(tail, keep);
      var ti := KeptIndices(tail, keep);
      var h := if keep(s[0]) then 1 else 0;
      var idx := KeptIndices(s, keep);
      assert idx == (if keep(s[0]) then [0] else []) + Shift(ti);
      forall k | 0 <= k < |idx|
        ensures idx[k] < |s| && keep(s[idx[k]])
      {
        if k >= h {
          assert idx[k] == ti[k - h] + 1;
          assert tail[ti[k - h]] == s[ti[k - h] + 1];
        }
      }
    }
  }

  /** A position in `s` moves to the next position in `Shift(s)`. */
  lemma InShift(s: seq<nat>, j: nat)
    requires j in s
    ensures j + 1 in Shift(s)
  {
    var k :| 0 <= k < |s| && s[k] == j;
    assert Shift(s)[k] == j + 1;
  }

  /** Every position whose element passes `keep` is kept. */
  lemma {:induction false} KeptIndicesComplete<T>(s: seq<T>, keep: T -> bool)
    ensures forall i :: 0 <= i < |s| && keep(s[i]) ==> i in KeptIndices(s, keep)
  {
    if |s| > 0 {
      var tail := s[1..];
      KeptIndicesComplete(tail, keep);
      var ti := KeptIndices(tail, keep);
      forall i | 0 < i < |s| && keep(s[i])
        ensures i in Shift(ti)
      {
        assert tail[i - 1] == s[i];
        InShift(ti, i - 1);
      }
      if keep(s[0]) {
        assert KeptIndices(s, keep) == [0] + Shift(ti);
      } else {
        assert KeptIndices(s, keep) == Shift(ti);
      }
    }
  }

  /** `opt.trim() !== ""`: the test an option must pass to be submitted. */
  predicate IsFilled(option: string) {
    !IsBlank(option)
  }

  /** `options.filter((opt) => opt.trim() !== "")`. */
  function NonBlankOptions(options: seq<string>): seq<string> {
    Filter(options, IsFilled)
  }

  /**
   * The submit filter's result is the subsequence of `options` at the
   * strictly increasing positions `KeptIndices(options, IsFilled)`, so the
   * kept entries keep their original order.
   */
  lemma NonBlankOptionsIsSubsequence(options: seq<string>)
    ensures var idx, r := KeptIndices(options, IsFilled), NonBlankOptions(options);
      && |idx| == |r|
      && (forall k :: 0 <= k < |idx| ==> idx[k] < |options| && r[k] == options[idx[k]])
      && StrictlyIncreasing(idx)
  {
    KeptIndicesMatch(options, IsFilled);
    KeptIndicesIncreasing(options, IsFilled);
  }

  /** A position is among those the submit filter keeps exactly when its entry is not blank. */
  lemma NonBlankOptionsKeepsExactlyFilled(options: seq<string>)
    ensures forall i :: 0 <= i < |options| ==> (i in KeptIndices(options, IsFilled) <==> !IsBlank(options[i]))
  {
    KeptIndicesSound(options, IsFilled);
    KeptIndicesComplete(options, IsFilled);
  }

  /** One edit a user makes to the option list. */
  datatype Edit = Add | Remove(index: nat) | Change(index: nat, text: string)

  /** The option list after one edit; a field the rendered list does not show cannot be edited. */
  function ApplyEdit(options: seq<string>, e: Edit): seq<string> {
    match e
    case Add => AppendBlank(options)
    case Remove(i) => RemoveOption(options, i)
    case Change(i, text) => if i < |options| then ChangeOption(options, i, text) else options
  }

  /** The option list after a sequence of edits, applied in order. */
  function ApplyEdits(options: seq<string>, edits: seq<Edit>): seq<string>
    decreases |edits|
  {
    if |edits| == 0 then options else ApplyEdits(ApplyEdit(options, edits[0]), edits[1..])
  }

  /** Any sequence of edits keeps a list that starts within bounds within bounds. */
  lemma {:induction false} EditsKeepBounds(options: seq<string>, edits: seq<Edit>)
    requires InBounds(options)
    ensures InBounds(ApplyEdits(options, edits))
    decreases |edits|
  {
    if |edits| > 0 {
      var next := ApplyEdit(options, edits[0]);
      match edits[0] {
        case Add => AppendBlankKeepsBounds(options);
        case Remove(i) => RemoveOptionKeepsBounds(options, i);
        case Change(i, text) =>
      }
      EditsKeepBounds(next, edits[1..]);
    }
  }

  /** From the two-blank start, every reachable option list has two to five entries. */
  lemma ReachableListsInBounds(edits: seq<Edit>)
    ensures 2 <= |ApplyEdits(InitialOptions, edits)| <= 5
  {
    EditsKeepBounds(InitialOptions, edits);
  }

  /** The minutes offered within each hour, in order. */
  const MinuteMarks: seq<nat> := [0, 30]

  /**
   * `generateTimeOptions`: for each hour 0..23 in turn, push the label of
   * minute 0 and then of minute 30.
   */
  method GenerateTimeOptions() returns (slots: seq<string>)
    ensures |slots| == 48
    ensures forall k :: 0 <= k < |slots| ==> slots[k] == SlotAt(k)
  {
    slots := [];
    for hour := 0 to 24
      invariant |slots| == 2 * hour
      invariant forall k :: 0 <= k < |slots| ==> slots[k] == SlotAt(k)
    {
      for m := 0 to |MinuteMarks|
        invariant |slots| == 2 * hour + m
        invariant forall k :: 0 <= k < |slots| ==> slots[k] == SlotAt(k)
      {
        var minute := MinuteMarks[m];
        var formattedHour := PadStart(NatToString(hour), 2, '0');
        var formattedMinute := PadStart(NatToString(minute), 2, '0');
        NextSlot(hour, m, minute);
        slots := slots + [formattedHour + ":" + formattedMinute];
      }
    }
  }
}
