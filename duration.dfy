/**
 * `format_duration` (src/pysleep/hypnogram_report.py): whole seconds rendered
 * as space-separated parts "<n>h", "<n>m", "<n>s", zero parts left out.
 */
module Duration {
  import opened Wrappers
  import opened Text

  /** One part of the rendering: a count and its unit letter. */
  datatype Part = Part(count: nat, unit: char)

  function UnitSeconds(unit: char): nat
  {
    if unit == 'h' then 3600 else if unit == 'm' then 60 else 1
  }

  /** The `parts` list the source builds, before rendering. */
  function Parts(seconds: nat): seq<Part>
  {
    PartsOf(seconds / 3600, (seconds % 3600) / 60, seconds % 60)
  }

  /** The parts appended for the given hours, minutes and seconds. */
  function PartsOf(hours: nat, minutes: nat, secs: nat): seq<Part>
  {
    (if hours > 0 then [Part(hours, 'h')] else [])
    + (if minutes > 0 then [Part(minutes, 'm')] else [])
    + (if secs > 0 || (hours == 0 && minutes == 0) then [Part(secs, 's')] else [])
  }

  function RenderPart(p: Part): string
  {
    NatToString(p.count) + [p.unit]
  }

  function RenderParts(ps: seq<Part>): (ws: seq<string>)
    ensures |ws| == |ps|
    ensures forall k :: 0 <= k < |ps| ==> ws[k] == RenderPart(ps[k])
  {
    if ps == [] then [] else [RenderPart(ps[0])] + RenderParts(ps[1..])
  }

  /** The source's `format_duration(seconds)`. */
  function FormatDuration(seconds: nat): string
  {
    if seconds == 0 then "0s"
    else Join(RenderParts(Parts(seconds)), " ")
  }

  /** `format_duration` as the source writes it: the parts are appended one by one, then joined. */
  method RenderDuration(seconds: nat) returns (text: string)
    ensures text == FormatDuration(seconds)
  {
    if seconds == 0 {
      return "0s";
    }
    var hours := seconds / 3600;
    var minutes := (seconds % 3600) / 60;
    var secs := seconds % 60;
    var parts: seq<string> := [];
    ghost var ps: seq<Part> := [];
    if hours > 0 {
      parts, ps := parts + [RenderPart(Part(hours, 'h'))], ps + [Part(hours, 'h')];
    }
    if minutes > 0 {
      parts, ps := parts + [RenderPart(Part(minutes, 'm'))], ps + [Part(minutes, 'm')];
    }
    if secs > 0 || (hours == 0 && minutes == 0) {
      parts, ps := parts + [RenderPart(Part(secs, 's'))], ps + [Part(secs, 's')];
    }
    assert ps == Parts(seconds);
    assert parts == RenderParts(ps);
    text := Join(parts, " ");
  }

  /** Units of a parts list, in order. */
  function Units(ps: seq<Part>): (us: string)
    ensures |us| == |ps|
    ensures forall k :: 0 <= k < |ps| ==> us[k] == ps[k].unit
  {
    if ps == [] then [] else [ps[0].unit] + Units(ps[1..])
  }

  /** Seconds a parts list stands for. */
  function PartsTotal(ps: seq<Part>): nat
  {
    if ps == [] then 0 else ps[0].count * UnitSeconds(ps[0].unit) + PartsTotal(ps[1..])
  }

  /**
   * What the parts list means: the `h` and `m` parts appear exactly when
   * non-zero, the `s` part exactly when the seconds are non-zero or nothing
   * else is shown, the units come in the order h, m, s, and the parts add
   * up to the input.
   */
  lemma PartsMeaning(seconds: nat)
    ensures var ps := Parts(seconds);
      && 1 <= |ps| <= 3
      && ('h' in Units(ps) <==> seconds / 3600 > 0)
      && ('m' in Units(ps) <==> (seconds % 3600) / 60 > 0)
      && ('s' in Units(ps) <==> seconds % 60 > 0 || seconds < 60)
      && (forall k :: 0 <= k < |ps| ==> ps[k].unit in "hms")
      && (forall i, j :: 0 <= i < j < |ps| ==> UnitSeconds(ps[i].unit) > UnitSeconds(ps[j].unit))
      && (forall k :: 0 <= k < |ps| ==> ps[k].count < 60 || ps[k].unit == 'h')
      && PartsTotal(ps) == seconds
  {
    var hours := seconds / 3600;
    var minutes := (seconds % 3600) / 60;
    var secs := seconds % 60;
    ModSixty(seconds);
    PartsOfMeaning(hours, minutes, secs);
  }

  lemma PartsOfMeaning(hours: nat, minutes: nat, secs: nat)
    requires minutes < 60 && secs < 60
    ensures var ps := PartsOf(hours, minutes, secs);
      && 1 <= |ps| <= 3
      && ('h' in Units(ps) <==> hours > 0)
      && ('m' in Units(ps) <==> minutes > 0)
      && ('s' in Units(ps) <==> secs > 0 || (hours == 0 && minutes == 0))
      && (forall k :: 0 <= k < |ps| ==> ps[k].unit in "hms")
      && (forall i, j :: 0 <= i < j < |ps| ==> UnitSeconds(ps[i].unit) > UnitSeconds(ps[j].unit))
      && (forall k :: 0 <= k < |ps| ==> ps[k].count < 60 || ps[k].unit == 'h')
      && PartsTotal(ps) == hours * 3600 + minutes * 60 + secs
  {
    PartsOfUnits(hours, minutes, secs);
    PartsOfOrder(hours, minutes, secs);
    PartsOfTotal(hours, minutes, secs);
  }

  /** Which parts appear: hours and minutes when non-zero, seconds when non-zero or alone. */
  lemma PartsOfUnits(hours: nat, minutes: nat, secs: nat)
    ensures var ps := PartsOf(hours, minutes, secs);
      && 1 <= |ps| <= 3
      && ('h' in Units(ps) <==> hours > 0)
      && ('m' in Units(ps) <==> minutes > 0)
      && ('s' in Units(ps) <==> secs > 0 || (hours == 0 && minutes == 0))
  {
    var ps := PartsOf(hours, minutes, secs);
    if hours > 0 && minutes > 0 && secs > 0 {
      assert ps == [Part(hours, 'h'), Part(minutes, 'm'), Part(secs, 's')];
      assert Units(ps) == "hms";
    } else if hours > 0 && minutes > 0 {
      assert ps == [Part(hours, 'h'), Part(minutes, 'm')];
      assert Units(ps) == "hm";
    } else if hours > 0 && secs > 0 {
      assert ps == [Part(hours, 'h'), Part(secs, 's')];
      assert Units(ps) == "hs";
    } else if hours > 0 {
      assert ps == [Part(hours, 'h')];
      assert Units(ps) == "h";
    } else if minutes > 0 && secs > 0 {
      assert ps == [Part(minutes, 'm'), Part(secs, 's')];
      assert Units(ps) == "ms";
    } else if minutes > 0 {
      assert ps == [Part(minutes, 'm')];
      assert Units(ps) == "m";
    } else {
      assert ps == [Part(secs, 's')];
      assert Units(ps) == "s";
    }
  }

  /** The parts come in the order h, m, s, and only the hours may reach 60. */
  lemma PartsOfOrder(hours: nat, minutes: nat, secs: nat)
    requires minutes < 60 && secs < 60
    ensures var ps := PartsOf(hours, minutes, secs);
      && (forall k :: 0 <= k < |ps| ==> ps[k].unit in "hms")
      && (forall i, j :: 0 <= i < j < |ps| ==> UnitSeconds(ps[i].unit) > UnitSeconds(ps[j].unit))
      && (forall k :: 0 <= k < |ps| ==> ps[k].count < 60 || ps[k].unit == 'h')
  {
    var ps := PartsOf(hours, minutes, secs);
    if hours > 0 && minutes > 0 && secs > 0 {
      assert ps == [Part(hours, 'h'), Part(minutes, 'm'), Part(secs, 's')];
    } else if hours > 0 && minutes > 0 {
      assert ps == [Part(hours, 'h'), Part(minutes, 'm')];
    } else if hours > 0 && secs > 0 {
      assert ps == [Part(hours, 'h'), Part(secs, 's')];
    } else if hours > 0 {
      assert ps == [Part(hours, 'h')];
    } else if minutes > 0 && secs > 0 {
      assert ps == [Part(minutes, 'm'), Part(secs, 's')];
    } else if minutes > 0 {
      assert ps == [Part(minutes, 'm')];
    } else {
      assert ps == [Part(secs, 's')];
    }
  }

  /** The parts add up to the hours, minutes and seconds they were made of. */
  lemma PartsOfTotal(hours: nat, minutes: nat, secs: nat)
    ensures PartsTotal(PartsOf(hours, minutes, secs)) == hours * 3600 + minutes * 60 + secs
  {
    var h := if hours > 0 then [Part(hours, 'h')] else [];
    var m := if minutes > 0 then [Part(minutes, 'm')] else [];
    var s := if secs > 0 || (hours == 0 && minutes == 0) then [Part(secs, 's')] else [];
    PartsTotalAppend(h + m, s);
    PartsTotalAppend(h, m);
    assert PartsTotal(h) == hours * 3600;
    assert PartsTotal(m) == minutes * 60;
    assert PartsTotal(s) == secs;
  }

  lemma ModSixty(seconds: nat)
    ensures seconds == (seconds / 3600) * 3600 + ((seconds % 3600) / 60) * 60 + seconds % 60
    ensures (seconds % 3600) / 60 < 60
    ensures seconds < 60 <==> seconds / 3600 == 0 && (seconds % 3600) / 60 == 0
  {
    var r := seconds % 3600;
    assert seconds == (seconds / 3600) * 3600 + r;
    assert r == (r / 60) * 60 + r % 60;
    assert seconds % 60 == r % 60 by {
      assert seconds == (seconds / 3600) * 60 * 60 + r;
    }
  }

  lemma {:induction false} PartsTotalAppend(a: seq<Part>, b: seq<Part>)
    ensures PartsTotal(a + b) == PartsTotal(a) + PartsTotal(b)
  {
    if a == [] {
      assert a + b == b;
    } else {
      assert (a + b)[1..] == a[1..] + b;
      PartsTotalAppend(a[1..], b);
    }
  }

  /** Parses one rendered part, "<digits><unit>". */
  function ParsePart(w: string): Option<Part>
  {
    if |w| >= 2 && w[|w| - 1] in "hms" then
      match ParseNat(w[..|w| - 1])
      case Some(n) => Some(Part(n, w[|w| - 1]))
      case None => None
    else None
  }

  function ParseParts(ws: seq<string>): Option<seq<Part>>
  {
    if ws == [] then Some([])
    else match (ParsePart(ws[0]), ParseParts(ws[1..]))
      case (Some(p), Some(ps)) => Some([p] + ps)
      case _ => None
  }

  /** Reads a rendered duration back as seconds: the inverse of `FormatDuration`. */
  function ParseDuration(s: string): Option<nat>
  {
    match ParseParts(Split(s, ' '))
    case Some(ps) => Some(PartsTotal(ps))
    case None => None
  }

  lemma {:induction false} ParsePartsRendered(ps: seq<Part>)
    requires forall k :: 0 <= k < |ps| ==> ps[k].unit in "hms"
    ensures ParseParts(RenderParts(ps)) == Some(ps)
  {
    if ps != [] {
      var w, ws := RenderPart(ps[0]), RenderParts(ps);
      assert ParsePart(w) == Some(ps[0]) by {
        assert w[..|w| - 1] == NatToString(ps[0].count);
        assert w[|w| - 1] == ps[0].unit;
        NatToStringRoundTrip(ps[0].count);
      }
      assert ws[0] == w && ws[1..] == RenderParts(ps[1..]);
      assert ParseParts(ws[1..]) == Some(ps[1..]) by {
        ParsePartsRendered(ps[1..]);
      }
      assert [ps[0]] + ps[1..] == ps;
    }
  }

  /**
   * Round trip: the rendering of any duration reads back as that duration,
   * so distinct durations never render alike and no rendering is empty.
   */
  lemma FormatDurationRoundTrip(seconds: nat)
    ensures FormatDuration(seconds) != ""
    ensures ParseDuration(FormatDuration(seconds)) == Some(seconds)
  {
    PartsMeaning(seconds);
    var ps := Parts(seconds);
    var ws := RenderParts(ps);
    FormatDurationIsJoin(seconds);
    RenderedHaveNoSpace(ps);
    SplitJoin(ws, ' ');
    ParsePartsRendered(ps);
  }

  /** The early return for zero agrees with the general rule. */
  lemma FormatDurationIsJoin(seconds: nat)
    ensures FormatDuration(seconds) == Join(RenderParts(Parts(seconds)), " ")
  {
    if seconds == 0 {
      assert Parts(0) == PartsOf(0, 0, 0) == [Part(0, 's')];
      assert DigitChar(0) == '0';
      assert NatToString(0) == "0";
      assert RenderPart(Part(0, 's')) == "0s";
      assert RenderParts([Part(0, 's')]) == ["0s"];
    }
  }

  lemma RenderedHaveNoSpace(ps: seq<Part>)
    requires forall k :: 0 <= k < |ps| ==> ps[k].unit in "hms"
    ensures forall k :: 0 <= k < |ps| ==> ' ' !in RenderParts(ps)[k]
  {
    forall k | 0 <= k < |ps| ensures ' ' !in RenderParts(ps)[k] {
      var d := NatToString(ps[k].count);
      assert RenderParts(ps)[k] == d + [ps[k].unit];
      assert !IsDigit(' ');
    }
  }

  /** The worked examples of the source's doc comment, and 45 s. */
  lemma FormatDurationSmall()
    ensures FormatDuration(0) == "0s"
    ensures FormatDuration(45) == "45s"
  {
    assert DigitChar(4) == '4' && DigitChar(5) == '5';
    assert NatToString(4) == "4";
    assert NatToString(45) == NatToString(4) + "5" == "45";
    assert Parts(45) == PartsOf(0, 0, 45) == [Part(45, 's')];
    assert RenderPart(Part(45, 's')) == "45s";
    assert RenderParts([Part(45, 's')]) == ["45s"];
  }

  lemma FormatDurationWhole()
    ensures FormatDuration(300) == "5m"
    ensures FormatDuration(3600) == "1h"
  {
    assert DigitChar(1) == '1' && DigitChar(5) == '5';
    assert Parts(300) == PartsOf(0, 5, 0) == [Part(5, 'm')];
    assert RenderPart(Part(5, 'm')) == "5m";
    assert RenderParts([Part(5, 'm')]) == ["5m"];
    assert Parts(3600) == PartsOf(1, 0, 0) == [Part(1, 'h')];
    assert RenderPart(Part(1, 'h')) == "1h";
    assert RenderParts([Part(1, 'h')]) == ["1h"];
  }

  lemma FormatDurationMixed()
    ensures FormatDuration(3665) == "1h 1m 5s"
  {
    assert DigitChar(1) == '1' && DigitChar(5) == '5';
    assert Parts(3665) == PartsOf(1, 1, 5) == [Part(1, 'h'), Part(1, 'm'), Part(5, 's')];
    assert RenderPart(Part(1, 'h')) == "1h";
    assert RenderPart(Part(1, 'm')) == "1m";
    assert RenderPart(Part(5, 's')) == "5s";
    assert RenderParts([Part(1, 'h'), Part(1, 'm'), Part(5, 's')]) == ["1h", "1m", "5s"];
  }
}
