/** The activity feed's text: how long ago an entry was made, and the
    label of the status it records. */
module ActivityFeed {
  import opened Common
  import opened Types
  import opened RetailerDetail

  /** `formatTimestamp`, as a function of `now - then` in milliseconds.
      Dafny's division by a positive number rounds down, as
      `Math.floor` does. */
  function FormatTimestamp(diff: int): string
  {
    var minutes := diff / 60000;
    var hours := minutes / 60;
    var days := hours / 24;
    if minutes < 1 then "Just now"
    else if minutes < 60 then NatToString(minutes) + "m ago"
    else if hours < 24 then NatToString(hours) + "h ago"
    else NatToString(days) + "d ago"
  }

  /** Rounding down twice is rounding down once by the product. */
  lemma DivDiv(a: int, b: int, c: int)
    requires b > 0 && c > 0
    ensures (a / b) / c == a / (b * c)
  {
    var q := a / b;
    var q2 := q / c;
    var rest := b * (q % c) + a % b;
    assert b * q == (b * c) * q2 + b * (q % c) by {
      assert q == c * q2 + q % c;
      assert b * (c * q2 + q % c) == b * (c * q2) + b * (q % c);
      assert b * (c * q2) == (b * c) * q2;
    }
    assert 0 <= b * (q % c) <= b * c - b by {
      MulLe(b, q % c, c - 1);
      assert b * (c - 1) == b * c - b;
    }
    DivUnique(a, b * c, q2, rest);
  }

  lemma MulLe(b: int, x: int, y: int)
    requires b >= 0 && 0 <= x <= y
    ensures 0 <= b * x <= b * y
  {
    assert b * y == b * x + b * (y - x);
  }

  /** A quotient is fixed by a remainder in range. */
  lemma DivUnique(a: int, d: int, q: int, r: int)
    requires d > 0 && 0 <= r < d && a == d * q + r
    ensures a / d == q
  {
    var k := q - a / d;
    assert d * k == a % d - r by {
      assert d * q - d * (a / d) == d * k;
    }
    MulAtLeast(d, k);
  }

  lemma MulAtLeast(d: int, k: int)
    requires d > 0
    ensures k >= 1 ==> d * k >= d
    ensures k <= -1 ==> d * k <= -d
  {
    if k >= 1 {
      MulLe(d, 1, k);
    } else if k <= -1 {
      MulLe(d, 1, -k);
      assert d * (-k) == -(d * k);
    }
  }

  /** Under a minute ago, and any time in the future, reads `Just now`. */
  lemma JustNow(diff: int)
    requires diff < 60000
    ensures FormatTimestamp(diff) == "Just now"
  {
  }

  /** From one minute up to an hour: whole minutes. */
  lemma MinutesAgo(diff: int)
    requires 60000 <= diff < 3600000
    ensures 1 <= diff / 60000 < 60
    ensures FormatTimestamp(diff) == NatToString(diff / 60000) + "m ago"
  {
  }

  /** From one hour up to a day: whole hours. */
  lemma HoursAgo(diff: int)
    requires 3600000 <= diff < 86400000
    ensures 1 <= diff / 3600000 < 24
    ensures FormatTimestamp(diff) == NatToString(diff / 3600000) + "h ago"
  {
    DivDiv(diff, 60000, 60);
  }

  /** From one day on: whole days, at least one. */
  lemma DaysAgo(diff: int)
    requires diff >= 86400000
    ensures diff / 86400000 >= 1
    ensures FormatTimestamp(diff) == NatToString(diff / 86400000) + "d ago"
  {
    DivDiv(diff, 60000, 60);
    DivDiv(diff, 3600000, 24);
  }

  /** The feed's `getStatusLabel`: the empty status reads `Removed`; an
      unknown one is shown as it is. */
  function FeedStatusLabel(s: string): (r: string)
    ensures s == "" ==> r == "Removed"
    ensures s != "shelves" && s != "shelves-screens" && s != "x-client" && s != "" ==> r == s
  {
    if s == "shelves" then "Shelves Only"
    else if s == "shelves-screens" then "Shelves & Screens"
    else if s == "x-client" then "X-Client"
    else if s == "" then "Removed"
    else s
  }

  /** The feed and the retailer panel label the three active statuses
      alike; for the empty status the feed says `Removed` and the panel
      `Not Active`. */
  lemma LabelsAgree(d: DistStatus)
    ensures d != NoStatus ==> FeedStatusLabel(d.Name()) == PanelStatusLabel(d.Name())
    ensures d == NoStatus ==> FeedStatusLabel(d.Name()) == "Removed" && PanelStatusLabel(d.Name()) == "Not Active"
  {
  }
}
