/**
 * The Bright Data proxy user name rewrite: with the unlocker enabled and an
 * unlocker zone configured, the `-zone-<name>` part of the user name is replaced by
 * the configured zone, keeping whatever follows the old zone name (`-session-…`).
 * The environment variable is a parameter.
 */
module BrightData {
  import opened Wrappers
  import opened Text

  const ZoneMarker: string := "-zone-"

  /** A zone name that the rewrite can find again: non-empty and without '-'. */
  predicate IsZoneName(zone: string) {
    zone != [] && '-' !in zone
  }

  /** `"-" + rest.split("-", 1)[1]` when `rest` holds a '-', else "". */
  function TailAfterZone(rest: string): (tail: string)
    ensures tail == [] <==> '-' !in rest
    ensures tail != [] ==> tail[0] == '-' && rest == Before(rest, "-") + tail
  {
    ContainsChar(rest, '-');
    if '-' in rest then "-" + After(rest, "-") else []
  }

  /**
   * `_apply_zone_override_to_username`: `zone` is the value of
   * BRIGHTDATA_UNLOCKER_ZONE (None when unset).
   */
  function ApplyZoneOverride(username: string, useUnlocker: bool, zone: Option<string>): (r: string)
    ensures !useUnlocker || zone.None? || zone.value == [] ==> r == username
    ensures useUnlocker && zone.Some? && zone.value != [] && !Contains(username, ZoneMarker)
      ==> r == username + ZoneMarker + zone.value
    ensures useUnlocker && zone.Some? && zone.value != [] && Contains(username, ZoneMarker)
      ==> r == Before(username, ZoneMarker) + ZoneMarker + zone.value
                + TailAfterZone(Before(After(username, ZoneMarker), ZoneMarker))
  {
    if !useUnlocker || zone.None? || zone.value == [] then username
    else if Contains(username, ZoneMarker) then
      var prefix := Before(username, ZoneMarker);
      var rest := Before(After(username, ZoneMarker), ZoneMarker);
      var tail := TailAfterZone(rest);
      prefix + ZoneMarker + zone.value + tail
    else
      username + ZoneMarker + zone.value
  }

  /** A zone name followed by a tail that starts with '-' and holds no marker holds no marker. */
  lemma {:induction false} NoMarkerInZoneAndTail(zone: string, tail: string)
    requires IsZoneName(zone)
    requires tail == [] || (tail[0] == '-' && !Contains(tail, ZoneMarker))
    ensures !Contains(zone + tail, ZoneMarker)
  {
    var s := zone + tail;
    forall j | 0 <= j <= |s| - |ZoneMarker| ensures !OccursAt(s, ZoneMarker, j) {
      if j < |zone| {
        assert zone[j] in zone;
        assert s[j..j + |ZoneMarker|][0] == zone[j] != '-' == ZoneMarker[0];
      } else {
        var k := j - |zone|;
        assert 0 <= k <= |tail| - |ZoneMarker|;
        assert s[j..j + |ZoneMarker|] == tail[k..k + |ZoneMarker|];
        assert !OccursAt(tail, ZoneMarker, k);
      }
    }
  }

  /** The text after the first '-' of `zone + tail` is the text after the first '-' of `tail`. */
  lemma {:induction false} TailOfZoneAndTail(zone: string, tail: string)
    requires IsZoneName(zone) && tail != [] && tail[0] == '-'
    ensures TailAfterZone(zone + tail) == tail
  {
    var rest := zone + tail;
    assert rest[|zone|] == '-';
    var b := Before(rest, "-");
    ContainsChar(rest, '-');
    assert OccursAt(rest, "-", |zone|);
    forall j | 0 <= j < |zone| ensures !OccursAt(rest, "-", j) {
      assert rest[j..j + 1][0] == zone[j];
    }
    assert |b| == |zone|;
    var t := TailAfterZone(rest);
    assert rest == b + t;
    assert t == rest[|zone|..];
  }

  /** The first marker of `prefix + marker + rest` is the one after `prefix`. */
  lemma MarkerSplit(prefix: string, rest: string)
    requires !Contains(prefix + "-zone", ZoneMarker)
    ensures Contains(prefix + ZoneMarker + rest, ZoneMarker)
    ensures Before(prefix + ZoneMarker + rest, ZoneMarker) == prefix
    ensures After(prefix + ZoneMarker + rest, ZoneMarker) == rest
  {
    var u := prefix + ZoneMarker + rest;
    assert u[|prefix|..|prefix| + |ZoneMarker|] == ZoneMarker;
    assert OccursAt(u, ZoneMarker, |prefix|);
    var b := Before(u, ZoneMarker);
    assert u[..|prefix| + 5] == prefix + "-zone";
    forall j | 0 <= j < |prefix| ensures !OccursAt(u, ZoneMarker, j) {
      OccursInPrefix(u, |prefix| + 5, ZoneMarker, j);
    }
    assert |b| == |prefix|;
  }

  /**
   * A user name already carrying `zone` as its first zone is left as it is, provided
   * the marker does not occur earlier, overlapping the `-zone` that introduces it.
   */
  lemma {:induction false} RewriteFixpoint(prefix: string, zone: string, tail: string)
    requires !Contains(prefix + "-zone", ZoneMarker)
    requires IsZoneName(zone)
    requires tail == [] || (tail[0] == '-' && !Contains(tail, ZoneMarker))
    ensures ApplyZoneOverride(prefix + ZoneMarker + zone + tail, true, Some(zone))
         == prefix + ZoneMarker + zone + tail
  {
    var u := prefix + ZoneMarker + (zone + tail);
    MarkerSplit(prefix, zone + tail);
    NoMarkerInZoneAndTail(zone, tail);
    assert Before(zone + tail, ZoneMarker) == zone + tail;
    if tail == [] {
      assert zone + tail == zone;
    } else {
      TailOfZoneAndTail(zone, tail);
    }
    assert TailAfterZone(zone + tail) == tail;
    ConcatAssoc(prefix + ZoneMarker, zone, tail);
  }

  /** The text before the first marker, extended by "-zone", holds no marker. */
  lemma NoEarlyMarker(username: string)
    requires Contains(username, ZoneMarker)
    ensures !Contains(Before(username, ZoneMarker) + "-zone", ZoneMarker)
  {
    var prefix := Before(username, ZoneMarker);
    var after := After(username, ZoneMarker);
    var q := prefix + "-zone";
    assert username == prefix + ZoneMarker + after;
    assert username[..|q|] == q;
    forall j | 0 <= j <= |q| - |ZoneMarker| ensures !OccursAt(q, ZoneMarker, j) {
      OccursInPrefix(username, |q|, ZoneMarker, j);
    }
  }

  /** The kept tail starts with '-' and, cut from a marker-free text, holds no marker. */
  lemma TailHasNoMarker(after: string)
    ensures var tail := TailAfterZone(Before(after, ZoneMarker));
      tail == [] || (tail[0] == '-' && !Contains(tail, ZoneMarker))
  {
    var rest := Before(after, ZoneMarker);
    var tail := TailAfterZone(rest);
    if tail != [] {
      var m := |Before(rest, "-")|;
      assert tail == rest[m..];
      NotContainsSuffix(rest, m, ZoneMarker);
    }
  }

  /**
   * Rewriting twice gives the same user name as rewriting once, for a zone name without
   * '-' (a zone with '-' is cut at its first '-' by the second rewrite), and for a user
   * name that either carries the marker or does not end in "-zone" (for "u-zone" the
   * first rewrite appends "-zone-Z" and the second then finds the marker one word early).
   */
  lemma {:induction false} ApplyZoneOverrideIdempotent(username: string, useUnlocker: bool, zone: Option<string>)
    requires zone.Some? ==> '-' !in zone.value
    requires Contains(username, ZoneMarker) || !Contains(username + "-zone", ZoneMarker)
    ensures ApplyZoneOverride(ApplyZoneOverride(username, useUnlocker, zone), useUnlocker, zone)
         == ApplyZoneOverride(username, useUnlocker, zone)
  {
    if useUnlocker && zone.Some? && zone.value != [] {
      var z := zone.value;
      if Contains(username, ZoneMarker) {
        var after := After(username, ZoneMarker);
        var tail := TailAfterZone(Before(after, ZoneMarker));
        NoEarlyMarker(username);
        TailHasNoMarker(after);
        RewriteFixpoint(Before(username, ZoneMarker), z, tail);
      } else {
        assert username + ZoneMarker + z + [] == username + ZoneMarker + z;
        RewriteFixpoint(username, z, []);
      }
    }
  }
}
