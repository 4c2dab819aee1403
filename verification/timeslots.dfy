/**
 * The half-hour labels of the end-time picker on both poll-creation pages,
 * and the split of a chosen label back into hours and minutes that
 * `handleSubmit` performs.
 */
module TimeSlots {
  import opened Wrappers
  import opened JsStrings

  /** `n.toString().padStart(2, "0")`. */
  function Pad2(n: nat): string {
    PadStart(NatToString(n), 2, '0')
  }

  /** The label `HH:MM` of one slot. */
  function Slot(hour: nat, minute: nat): string {
    Pad2(hour) + ":" + Pad2(minute)
  }

  /** The slot at position `k` of the picker: hour `k / 2`, minute 0 or 30. */
  function SlotAt(k: nat): string {
    Slot(k / 2, 30 * (k % 2))
  }

  /** Below 100, the padded field is exactly the tens digit followed by the units digit. */
  lemma Pad2Digits(n: nat)
    requires n < 100
    ensures Pad2(n) == [DigitChar(n / 10), DigitChar(n % 10)]
  {
    var s := NatToString(n);
    if n < 10 {
      assert s == [DigitChar(n)];
      assert PadStart(s, 1, '0') == s;
      assert PadStart(s, 2, '0') == ['0'] + s;
      assert n / 10 == 0 && DigitChar(0) == '0';
    } else {
      assert NatToString(n / 10) == [DigitChar(n / 10)];
      assert s == [DigitChar(n / 10), DigitChar(n % 10)];
      assert PadStart(s, 2, '0') == s;
    }
  }

  /** The label for `hour` and the `m`-th minute mark is the one at position `2 * hour + m`. */
  lemma NextSlot(hour: nat, m: nat, minute: nat)
    requires m < 2 && minute == 30 * m
    ensures SlotAt(2 * hour + m) == Slot(hour, minute)
  {
    var k := 2 * hour + m;
    assert k / 2 == hour && k % 2 == m;
  }

  /** A label the picker offers. */
  ghost predicate IsSlot(t: string) {
    exists k :: 0 <= k < 48 && t == SlotAt(k)
  }

  /** Every label below 100:100 is five characters: two digits, a colon, two digits. */
  lemma SlotShape(hour: nat, minute: nat)
    requires hour < 100 && minute < 100
    ensures Slot(hour, minute) == Digits5(hour, minute)
  {
    var h, m := Pad2(hour), Pad2(minute);
    Pad2Digits(hour);
    Pad2Digits(minute);
    calc {
      Slot(hour, minute);
      h + ":" + m;
      [h[0], h[1]] + [':'] + [m[0], m[1]];
    }
  }

  /** The hours and minutes `handleSubmit` reads out of the chosen end time. */
  datatype TimeParts = TimeParts(hours: Option<nat>, minutes: Option<nat>)

  /**
   * `const [hours, minutes] = endTime.split(":").map(Number)`: the first two
   * pieces as numbers, None where a piece is missing or not a number.
   */
  function SplitTime(endTime: string): TimeParts {
    var parts := Split(endTime, ':');
    TimeParts(ToNumber(parts[0]), if |parts| > 1 then ToNumber(parts[1]) else None)
  }

  /** `Number(n.toString().padStart(2, "0")) === n`, and the padded field holds no ':'. */
  lemma Pad2RoundTrip(n: nat)
    requires n < 100
    ensures ToNumber(Pad2(n)) == Some(n) && ':' !in Pad2(n)
  {
    Pad2Digits(n);
    NatToStringRoundTrip(n);
    ZeroPaddingKeepsValue(NatToString(n), 2);
  }

  /** Splitting a label on ':' gives back the hour and minute that produced it. */
  lemma SlotRoundTrip(hour: nat, minute: nat)
    requires hour < 100 && minute < 100
    ensures SplitTime(Slot(hour, minute)) == TimeParts(Some(hour), Some(minute))
  {
    var h, m := Pad2(hour), Pad2(minute);
    Pad2RoundTrip(hour);
    Pad2RoundTrip(minute);
    SplitJoin([h, m], ':');
    assert Join([h, m], ':') == Slot(hour, minute);
  }

  /** Every label the picker offers splits back into the hour and minute of its position. */
  lemma GeneratedSlotsRoundTrip(k: nat)
    requires k < 48
    ensures SplitTime(SlotAt(k)) == TimeParts(Some(k / 2), Some(30 * (k % 2)))
  {
    SlotRoundTrip(k / 2, 30 * (k % 2));
  }

  /** The picker's entry `k` splits into an hour below 24 and a minute of 0 or 30. */
  lemma SlotAtSplitsIntoTime(k: nat)
    requires k < 48
    ensures SplitTime(SlotAt(k)).hours.Some? && SplitTime(SlotAt(k)).hours.value < 24
    ensures SplitTime(SlotAt(k)).minutes == Some(0) || SplitTime(SlotAt(k)).minutes == Some(30)
  {
    GeneratedSlotsRoundTrip(k);
    if k % 2 == 0 {
      assert 30 * (k % 2) == 0;
    } else {
      assert 30 * (k % 2) == 30;
    }
  }

  /** Whatever label is chosen, the split yields an hour below 24 and a minute of 0 or 30. */
  lemma SlotSplitsIntoTime(t: string)
    requires IsSlot(t)
    ensures SplitTime(t).hours.Some? && SplitTime(t).hours.value < 24
    ensures SplitTime(t).minutes == Some(0) || SplitTime(t).minutes == Some(30)
  {
    var k :| 0 <= k < 48 && t == SlotAt(k);
    SlotAtSplitsIntoTime(k);
  }

  /** The default end time "12:00" is the noon label, position 24. */
  lemma NoonIsSlot()
    ensures "12:00" == SlotAt(24) && IsSlot("12:00")
  {
    SlotShape(12, 0);
  }

  /** Two strings that agree before position `i` and differ upward at `i` are in order. */
  lemma {:induction false} LexLessAt(a: string, b: string, i: nat)
    requires i < |a| && i < |b| && a[..i] == b[..i] && a[i] < b[i]
    ensures LexLess(a, b)
  {
    if i > 0 {
      assert a[0] == a[..i][0] == b[..i][0] == b[0];
      assert a[1..][..i - 1] == a[1..i] == a[..i][1..];
      assert b[1..][..i - 1] == b[1..i] == b[..i][1..];
      LexLessAt(a[1..], b[1..], i - 1);
    }
  }

  /** The five-character label of `hour`:`minute`, digit by digit. */
  function Digits5(hour: nat, minute: nat): string
    requires hour < 100 && minute < 100
  {
    [DigitChar(hour / 10), DigitChar(hour % 10), ':', DigitChar(minute / 10), DigitChar(minute % 10)]
  }

  /** Digit-by-digit labels of an earlier time sort earlier. */
  lemma Digits5Order(h1: nat, m1: nat, h2: nat, m2: nat)
    requires h1 < 100 && h2 < 100 && m1 < 100 && m2 < 100
    requires h1 < h2 || (h1 == h2 && m1 < m2)
    ensures LexLess(Digits5(h1, m1), Digits5(h2, m2))
  {
    var a, b := Digits5(h1, m1), Digits5(h2, m2);
    if h1 / 10 != h2 / 10 {
      LexLessAt(a, b, 0);
    } else if h1 % 10 != h2 % 10 {
      LexLessAt(a, b, 1);
    } else if m1 / 10 != m2 / 10 {
      assert a[..3] == b[..3];
      LexLessAt(a, b, 3);
    } else {
      assert a[..4] == b[..4];
      LexLessAt(a, b, 4);
    }
  }

  /** An earlier time of day gets a label that sorts earlier. */
  lemma SlotOrder(h1: nat, m1: nat, h2: nat, m2: nat)
    requires h1 < 100 && h2 < 100 && m1 < 100 && m2 < 100
    requires h1 < h2 || (h1 == h2 && m1 < m2)
    ensures LexLess(Slot(h1, m1), Slot(h2, m2))
  {
    SlotShape(h1, m1);
    SlotShape(h2, m2);
    Digits5Order(h1, m1, h2, m2);
  }

  /** The labels are listed in strictly ascending string order. */
  lemma SlotsAscending(j: nat, k: nat)
    requires j < k < 48
    ensures LexLess(SlotAt(j), SlotAt(k))
  {
    SlotOrder(j / 2, 30 * (j % 2), k / 2, 30 * (k % 2));
  }
}
