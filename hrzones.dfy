/** The heart-rate zone histogram: an insertion-ordered dictionary from a
    zone's upper heart-rate limit to the number of samples counted in it,
    and the parsing of the `-hrzones` command-line value ("130;140;150")
    that defines the limits. */
module HeartRateZones {
  import opened Util

  /** One dictionary entry: the zone's highest heart rate and its count. */
  datatype Zone = Zone(limit: int, count: nat)

  /** The catch-all zone appended after the user's limits. */
  const OpenZoneLimit: int := 999

  /** The command-line switch whose next argument holds the limits. */
  const ZonesSwitch: string := "-hrzones"

  /** The keys in insertion order. */
  function Limits(zones: seq<Zone>): (ks: seq<int>)
    ensures |ks| == |zones| && forall i :: 0 <= i < |zones| ==> ks[i] == zones[i].limit
  {
    if zones == [] then [] else [zones[0].limit] + Limits(zones[1..])
  }

  /** A dictionary holds each key once. */
  predicate WellFormed(zones: seq<Zone>)
  {
    Distinct(Limits(zones))
  }

  /** `zones[limit] = count`: an existing key keeps its place and takes the
      new count; a new key is appended. `PutLimits`, `PutEntries` and
      `PutWellFormed` state what that means. */
  function Put(zones: seq<Zone>, limit: int, count: nat): seq<Zone>
  {
    if zones == [] then [Zone(limit, count)]
    else if zones[0].limit == limit then [Zone(limit, count)] + zones[1..]
    else [zones[0]] + Put(zones[1..], limit, count)
  }

  /** The keys after a store: unchanged when the key was present, otherwise
      the new key at the end. */
  lemma {:induction false} PutLimits(zones: seq<Zone>, limit: int, count: nat)
    ensures Limits(Put(zones, limit, count)) ==
      if limit in Limits(zones) then Limits(zones) else Limits(zones) + [limit]
  {
    if zones != [] {
      assert Limits(zones) == [zones[0].limit] + Limits(zones[1..]);
      if zones[0].limit != limit {
        var rest := Put(zones[1..], limit, count);
        PutLimits(zones[1..], limit, count);
        assert ([zones[0]] + rest)[1..] == rest;
      }
    }
  }

  lemma WellFormedTail(zones: seq<Zone>)
    requires WellFormed(zones) && zones != []
    ensures WellFormed(zones[1..]) && zones[0].limit !in Limits(zones[1..])
  {
    assert Limits(zones) == [zones[0].limit] + Limits(zones[1..]);
  }

  /** The stored key holds the new count and every other entry keeps its
      place and its count. */
  lemma {:induction false} PutEntries(zones: seq<Zone>, limit: int, count: nat)
    requires WellFormed(zones)
    ensures var r := Put(zones, limit, count);
      && |zones| <= |r|
      && (forall i :: 0 <= i < |r| && r[i].limit == limit ==> r[i].count == count)
      && (forall i :: 0 <= i < |zones| && zones[i].limit != limit ==> r[i] == zones[i])
  {
    PutLimits(zones, limit, count);
    if zones != [] {
      var r := Put(zones, limit, count);
      WellFormedTail(zones);
      if zones[0].limit == limit {
        assert forall i :: 1 <= i < |zones| ==> zones[i].limit == Limits(zones[1..])[i - 1];
      } else {
        var rest := Put(zones[1..], limit, count);
        PutEntries(zones[1..], limit, count);
        PutLimits(zones[1..], limit, count);
        assert |rest| == |Limits(rest)| >= |zones| - 1;
        assert forall i :: 1 <= i < |r| ==> r[i] == rest[i - 1];
      }
    }
  }

  /** A store keeps each key once. */
  lemma PutWellFormed(zones: seq<Zone>, limit: int, count: nat)
    requires WellFormed(zones)
    ensures WellFormed(Put(zones, limit, count))
  {
    PutLimits(zones, limit, count);
  }

  // ---------------------------------------------------------------------
  // Counting a sample

  /** The first zone, in insertion order, whose limit is at least `hr`. */
  function FirstZoneAtLeast(zones: seq<Zone>, hr: int): (r: Option<nat>)
    ensures r.None? <==> forall i :: 0 <= i < |zones| ==> zones[i].limit < hr
    ensures r.Some? ==>
      && r.value < |zones| && zones[r.value].limit >= hr
      && forall i :: 0 <= i < r.value ==> zones[i].limit < hr
  {
    if zones == [] then None
    else if zones[0].limit >= hr then Some(0)
    else
      var r := FirstZoneAtLeast(zones[1..], hr);
      if r.None? then None else Some(r.value + 1)
  }

  /** The histogram after counting one sample of heart rate `hr`. */
  function Counted(zones: seq<Zone>, hr: int): seq<Zone>
  {
    var r := FirstZoneAtLeast(zones, hr);
    if r.None? then zones
    else zones[r.value := zones[r.value].(count := zones[r.value].count + 1)]
  }

  function Total(zones: seq<Zone>): nat
  {
    if zones == [] then 0 else Total(zones[..|zones| - 1]) + zones[|zones| - 1].count
  }

  lemma {:induction false} TotalIncrement(zones: seq<Zone>, k: nat)
    requires k < |zones|
    ensures Total(zones[k := zones[k].(count := zones[k].count + 1)]) == Total(zones) + 1
  {
    var z := zones[k := zones[k].(count := zones[k].count + 1)];
    var n := |zones| - 1;
    assert z[..n] == if k < n then zones[..n][k := zones[k].(count := zones[k].count + 1)] else zones[..n];
    if k < n {
      TotalIncrement(zones[..n], k);
    }
  }

  /** Counting a sample adds one to exactly one zone when some limit is at
      least the heart rate and changes nothing otherwise; the keys never
      change. */
  lemma CountedTotal(zones: seq<Zone>, hr: int)
    ensures Limits(Counted(zones, hr)) == Limits(zones)
    ensures Total(Counted(zones, hr)) == Total(zones) + (if HasZoneFor(zones, hr) then 1 else 0)
  {
    var r := FirstZoneAtLeast(zones, hr);
    if r.Some? {
      var k := r.value;
      var z := zones[k := zones[k].(count := zones[k].count + 1)];
      assert Counted(zones, hr) == z;
      CountedIncrements(zones, k);
      assert zones[k].limit >= hr;
      assert HasZoneFor(zones, hr);
    } else {
      assert Counted(zones, hr) == zones;
    }
  }

  /** Some zone's limit is at least `hr`. */
  predicate HasZoneFor(zones: seq<Zone>, hr: int)
  {
    exists i :: 0 <= i < |zones| && zones[i].limit >= hr
  }

  lemma CountedIncrements(zones: seq<Zone>, k: nat)
    requires k < |zones|
    ensures var z := zones[k := zones[k].(count := zones[k].count + 1)];
      Limits(z) == Limits(zones) && Total(z) == Total(zones) + 1
  {
    TotalIncrement(zones, k);
    var z := zones[k := zones[k].(count := zones[k].count + 1)];
    assert forall i :: 0 <= i < |z| ==> Limits(z)[i] == Limits(zones)[i];
  }

  /** With limits 130, 140, 150 and 999 a heart rate of 145 falls in the
      third zone and one of 999 in the last; one of 1000 is not counted. */
  lemma ZoneExample()
    ensures var zones := [Zone(130, 0), Zone(140, 0), Zone(150, 0), Zone(999, 0)];
      && FirstZoneAtLeast(zones, 145) == Some(2)
      && FirstZoneAtLeast(zones, 999) == Some(3)
      && FirstZoneAtLeast(zones, 1000) == None
  {
  }

  // ---------------------------------------------------------------------
  // The command-line value

  /** `s.split(sep)`: the pieces between separators, empty ones included;
      an empty string gives one empty piece. */
  function Split(s: string, sep: char): (pieces: seq<string>)
    ensures |pieces| >= 1
    ensures forall i :: 0 <= i < |pieces| ==> sep !in pieces[i]
  {
    if s == [] then [""]
    else
      var rest := Split(s[1..], sep);
      if s[0] == sep then [""] + rest
      else [[s[0]] + rest[0]] + rest[1..]
  }

  /** `sep.join(pieces)`. */
  function Join(pieces: seq<string>, sep: char): string
  {
    if pieces == [] then ""
    else if |pieces| == 1 then pieces[0]
    else pieces[0] + [sep] + Join(pieces[1..], sep)
  }

  /** Splitting loses nothing: joining the pieces gives the string back. */
  lemma {:induction false} SplitJoin(s: string, sep: char)
    ensures Join(Split(s, sep), sep) == s
  {
    if s != [] {
      var rest := Split(s[1..], sep);
      SplitJoin(s[1..], sep);
      if s[0] != sep {
        var pieces := Split(s, sep);
        if |rest| == 1 {
          assert pieces == [[s[0]] + rest[0]];
        } else {
          assert pieces[1..] == rest[1..];
          assert Join(rest, sep) == rest[0] + [sep] + Join(rest[1..], sep);
        }
      }
    }
  }

  /** Splitting the joined pieces gives them back when none holds the
      separator. */
  lemma {:induction false} JoinSplit(pieces: seq<string>, sep: char)
    requires |pieces| >= 1 && forall i :: 0 <= i < |pieces| ==> sep !in pieces[i]
    ensures Split(Join(pieces, sep), sep) == pieces
  {
    if |pieces| == 1 {
      SplitPiece(pieces[0], sep, []);
    } else {
      JoinSplit(pieces[1..], sep);
      SplitPiece(pieces[0], sep, Join(pieces[1..], sep));
    }
  }

  /** Splitting a separator-free piece followed by `[sep] + tail`, or alone. */
  lemma {:induction false} SplitPiece(piece: string, sep: char, tail: string)
    requires sep !in piece
    ensures Split(piece, sep) == [piece]
    ensures Split(piece + [sep] + tail, sep) == [piece] + Split(tail, sep)
  {
    if piece != [] {
      SplitPiece(piece[1..], sep, tail);
      assert (piece + [sep] + tail)[1..] == piece[1..] + [sep] + tail;
      assert [piece[0]] + piece[1..] == piece;
    } else {
      assert piece + [sep] + tail == [sep] + tail;
    }
  }

  /** The whitespace `int()` strips from both ends (the ASCII subset). */
  predicate IsSpace(c: char)
  {
    c == ' ' || '\t' <= c <= '\r' || '\U{1C}' <= c <= '\U{1F}'
  }

  function TrimStart(s: string): (r: string)
    ensures |r| <= |s| && (r != [] ==> !IsSpace(r[0]))
  {
    if s != [] && IsSpace(s[0]) then TrimStart(s[1..]) else s
  }

  function TrimEnd(s: string): (r: string)
    ensures |r| <= |s| && (r != [] ==> !IsSpace(r[|r| - 1]))
  {
    if s != [] && IsSpace(s[|s| - 1]) then TrimEnd(s[..|s| - 1]) else s
  }

  predicate IsDigit(c: char)
  {
    '0' <= c <= '9'
  }

  /** A run of decimal digits in which single underscores may separate two
      digits, as `int()` accepts it. */
  predicate IsDigitRun(s: string)
  {
    && s != []
    && IsDigit(s[0]) && IsDigit(s[|s| - 1])
    && (forall i :: 0 <= i < |s| ==> IsDigit(s[i]) || s[i] == '_')
    && (forall i :: 0 <= i < |s| - 1 ==> s[i] == '_' ==> IsDigit(s[i + 1]))
  }

  /** The value of the digits of `s`, underscores skipped. */
  function DigitsValue(s: string): nat
  {
    if s == [] then 0
    else
      var c := s[|s| - 1];
      if IsDigit(c) then DigitsValue(s[..|s| - 1]) * 10 + (c as int - '0' as int)
      else DigitsValue(s[..|s| - 1])
  }

  /** `int(s)` in base 10: `None` where Python raises `ValueError`. */
  function ParseInt(s: string): (r: Option<int>)
    ensures s == "" ==> r == None
  {
    var t := TrimEnd(TrimStart(s));
    if t == [] then None
    else if t[0] == '-' || t[0] == '+' then
      var digits := t[1..];
      var v: int := if t[0] == '-' then -(DigitsValue(digits) as int) else DigitsValue(digits);
      if IsDigitRun(digits) then Some(v)
      else None
    else if IsDigitRun(t) then Some(DigitsValue(t))
    else None
  }

  /** `str(n)` for a natural number. */
  function NatToString(n: nat): (s: string)
    ensures s != [] && forall i :: 0 <= i < |s| ==> IsDigit(s[i])
  {
    var d := [('0' as int + n % 10) as char];
    if n < 10 then d else NatToString(n / 10) + d
  }

  /** `str(n)`. */
  function IntToString(n: int): string
  {
    if n < 0 then "-" + NatToString(-n) else NatToString(n)
  }

  lemma {:induction false} NatToStringValue(n: nat)
    ensures DigitsValue(NatToString(n)) == n
  {
    var s := NatToString(n);
    assert s[|s| - 1] == ('0' as int + n % 10) as char;
    if n >= 10 {
      NatToStringValue(n / 10);
      assert s[..|s| - 1] == NatToString(n / 10);
    }
  }

  lemma DigitRunNoSpace(s: string)
    requires s != [] && forall i :: 0 <= i < |s| ==> IsDigit(s[i])
    ensures TrimEnd(TrimStart(s)) == s && IsDigitRun(s)
  {
  }

  /** Parsing a number's decimal form gives the number back. */
  lemma IntRoundTrip(n: int)
    ensures ParseInt(IntToString(n)) == Some(n)
  {
    if n < 0 {
      var digits := NatToString(-n);
      var s := "-" + digits;
      NatToStringValue(-n);
      assert TrimStart(s) == s;
      assert TrimEnd(s) == s;
      assert s[1..] == digits;
      DigitRunNoSpace(digits);
    } else {
      NatToStringValue(n);
      DigitRunNoSpace(NatToString(n));
    }
  }

  /** An empty piece, as a trailing `;` produces, cannot be parsed, and
      neither can a word. */
  lemma ParseIntRejects()
    ensures ParseInt("") == None && ParseInt("abc") == None && ParseInt("1__0") == None
  {
    assert !IsDigitRun("abc");
    assert TrimEnd(TrimStart("1__0")) == "1__0";
    assert !IsDigitRun("1__0") by {
      assert "1__0"[1] == '_' && "1__0"[2] == '_';
    }
  }

  /** `int()` accepts surrounding spaces, a sign and digit-separating
      underscores. */
  lemma ParseIntAccepts()
    ensures ParseInt(" 140 ") == Some(140) && ParseInt("-7") == Some(-7) && ParseInt("1_000") == Some(1000)
  {
    ParseSpaced();
    ParseSigned();
    ParseUnderscored();
  }

  lemma ParseSpaced()
    ensures ParseInt(" 140 ") == Some(140)
  {
    assert TrimStart(" 140 ") == "140 ";
    assert TrimEnd("140 ") == "140";
    assert "140"[..2] == "14" && "14"[..1] == "1" && "1"[..0] == "";
  }

  lemma ParseSigned()
    ensures ParseInt("-7") == Some(-7)
  {
    assert "-7"[1..] == "7" && "7"[..0] == "";
  }

  lemma ParseUnderscored()
    ensures ParseInt("1_000") == Some(1000)
  {
    var s := "1_000";
    assert IsDigitRun(s);
    assert s[..4] == "1_00";
    assert "1_00"[..3] == "1_0";
    assert "1_0"[..2] == "1_";
    assert "1_"[..1] == "1";
    assert "1"[..0] == "";
    assert DigitsValue("1_") == 1;
    assert DigitsValue("1_00") == 100;
  }

  // ---------------------------------------------------------------------
  // Choosing and reading the switch value

  /** The argument after the first `-hrzones` switch that has one. */
  function SwitchValue(args: seq<string>): Option<string>
  {
    if |args| < 2 then None
    else if args[0] == ZonesSwitch then Some(args[1])
    else SwitchValue(args[1..])
  }

  /** No switch occurs before index `i`. */
  predicate NoSwitchBefore(args: seq<string>, i: int)
  {
    forall j :: 0 <= j < i && j < |args| ==> args[j] != ZonesSwitch
  }

  /** A value is found exactly when some switch is followed by an argument,
      and it is the one after the first such switch. */
  lemma {:induction false} SwitchValueIsFirst(args: seq<string>)
    ensures SwitchValue(args).Some? <==> exists i :: 0 <= i < |args| - 1 && args[i] == ZonesSwitch
    ensures SwitchValue(args).Some? ==> exists i ::
      && 0 <= i < |args| - 1 && args[i] == ZonesSwitch
      && SwitchValue(args).value == args[i + 1]
      && NoSwitchBefore(args, i)
  {
    if |args| >= 2 && args[0] != ZonesSwitch {
      var tail := args[1..];
      SwitchValueIsFirst(tail);
      assert forall i :: 1 <= i < |args| ==> args[i] == tail[i - 1];
      if SwitchValue(tail).Some? {
        var i :| 0 <= i < |tail| - 1 && tail[i] == ZonesSwitch
          && SwitchValue(tail).value == tail[i + 1] && NoSwitchBefore(tail, i);
        assert args[i + 1] == ZonesSwitch && SwitchValue(args).value == args[i + 2];
        assert NoSwitchBefore(args, i + 1);
      } else {
        assert forall i :: 1 <= i < |args| - 1 ==> args[i] == tail[i - 1];
      }
    }
  }

  /** The limits `int()` gives for `pieces`, in order, or `None` when some
      piece is not a number (Python raises `ValueError` there). */
  function ParsedLimits(pieces: seq<string>): (r: Option<seq<int>>)
    ensures r.Some? ==> |r.value| == |pieces| && forall i :: 0 <= i < |pieces| ==> ParseInt(pieces[i]) == Some(r.value[i])
    ensures r.None? ==> exists i :: 0 <= i < |pieces| && ParseInt(pieces[i]).None?
  {
    if pieces == [] then Some([])
    else
      var n := |pieces| - 1;
      var rest := ParsedLimits(pieces[..n]);
      var last := ParseInt(pieces[n]);
      if rest.Some? && last.Some? then Some(rest.value + [last.value]) else None
  }

  /** When every piece parses, the limits are the parsed values in order. */
  lemma {:induction false} ParsedLimitsExact(pieces: seq<string>, ks: seq<int>)
    requires |pieces| == |ks| && forall i :: 0 <= i < |pieces| ==> ParseInt(pieces[i]) == Some(ks[i])
    ensures ParsedLimits(pieces) == Some(ks)
  {
    if pieces != [] {
      var n := |pieces| - 1;
      ParsedLimitsExact(pieces[..n], ks[..n]);
      assert ks == ks[..n] + [ks[n]];
    }
  }

  /** One piece that does not parse makes the whole value fail. */
  lemma {:induction false} ParsedLimitsRejects(pieces: seq<string>, k: nat)
    requires k < |pieces| && ParseInt(pieces[k]).None?
    ensures ParsedLimits(pieces).None?
  {
    var n := |pieces| - 1;
    if k < n {
      ParsedLimitsRejects(pieces[..n], k);
    }
  }

  /** The dictionary after inserting each of `ks` with count zero. */
  function PutAll(zones: seq<Zone>, ks: seq<int>): seq<Zone>
  {
    if ks == [] then zones
    else
      var n := |ks| - 1;
      Put(PutAll(zones, ks[..n]), ks[n], 0)
  }

  /** Inserting keys keeps each key once and yields exactly the old keys and
      the inserted ones. */
  lemma {:induction false} PutAllKeys(zones: seq<Zone>, ks: seq<int>)
    requires WellFormed(zones)
    ensures WellFormed(PutAll(zones, ks))
    ensures forall k :: k in Limits(PutAll(zones, ks)) <==> k in Limits(zones) || k in ks
  {
    if ks != [] {
      var n := |ks| - 1;
      var prefix := PutAll(zones, ks[..n]);
      PutAllKeys(zones, ks[..n]);
      PutLimits(prefix, ks[n], 0);
      PutWellFormed(prefix, ks[n], 0);
      forall k
        ensures k in ks <==> k in ks[..n] || k == ks[n]
      {
        if k in ks {
          var i :| 0 <= i < |ks| && ks[i] == k;
          assert i < n ==> ks[..n][i] == k;
        }
      }
    }
  }

  /** Inserting keys into empty zones leaves every count at zero. */
  lemma {:induction false} PutAllEmpty(zones: seq<Zone>, ks: seq<int>)
    requires WellFormed(zones) && forall i :: 0 <= i < |zones| ==> zones[i].count == 0
    ensures forall i :: 0 <= i < |PutAll(zones, ks)| ==> PutAll(zones, ks)[i].count == 0
  {
    if ks != [] {
      var n := |ks| - 1;
      var prefix := PutAll(zones, ks[..n]);
      PutAllEmpty(zones, ks[..n]);
      PutAllKeys(zones, ks[..n]);
      PutStoresZero(prefix, ks[n]);
    }
  }

  /** Storing a zero count in empty zones leaves every count at zero. */
  lemma PutStoresZero(zones: seq<Zone>, limit: int)
    requires WellFormed(zones) && forall i :: 0 <= i < |zones| ==> zones[i].count == 0
    ensures forall i :: 0 <= i < |Put(zones, limit, 0)| ==> Put(zones, limit, 0)[i].count == 0
  {
    var r := Put(zones, limit, 0);
    PutLimits(zones, limit, 0);
    PutEntries(zones, limit, 0);
    var lz := Limits(zones);
    var lr := Limits(r);
    forall i | 0 <= i < |r|
      ensures r[i].count == 0
    {
      if r[i].limit != limit {
        assert lr[i] != limit;
        assert i < |zones|;
        assert lr[i] == lz[i];
        assert r[i] == zones[i];
      }
    }
  }

  /** The zones after `ParseHRZones(value)` on `zones`: an empty value
      leaves them as they are; otherwise every limit is inserted with count
      zero, then the open zone. `None` where `int()` raises. */
  function ZonesParsed(zones: seq<Zone>, value: string): (r: Option<seq<Zone>>)
    requires WellFormed(zones)
    ensures r.Some? ==> WellFormed(r.value)
  {
    if value == "" then Some(zones)
    else
      var ks := ParsedLimits(Split(value, ';'));
      if ks.None? then None
      else
        PutAllKeys(zones, ks.value);
        PutWellFormed(PutAll(zones, ks.value), OpenZoneLimit, 0);
        Some(Put(PutAll(zones, ks.value), OpenZoneLimit, 0))
  }

  /** The loop of `ParseHRZones`: inserts the limit of each piece with
      count zero, in order, and stops at the first piece `int()` rejects,
      returning the zones inserted so far. */
  method InsertLimits(zones: seq<Zone>, pieces: seq<string>) returns (ok: bool, r: seq<Zone>)
    ensures ok <==> ParsedLimits(pieces).Some?
    ensures ok ==> r == PutAll(zones, ParsedLimits(pieces).value)
  {
    r := zones;
    for i := 0 to |pieces|
      invariant ParsedLimits(pieces[..i]).Some?
      invariant r == PutAll(zones, ParsedLimits(pieces[..i]).value)
    {
      var limit := ParseInt(pieces[i]);
      if limit.None? {
        ParsedLimitsRejects(pieces, i);
        return false, r;
      }
      ghost var ks := ParsedLimits(pieces[..i]).value;
      assert pieces[..i + 1] == pieces[..i] + [pieces[i]];
      PutAllSnoc(zones, ks, limit.value);
      r := Put(r, limit.value, 0);
    }
    assert pieces[..|pieces|] == pieces;
    ok := true;
  }

  /** The zones after `BuildHRZones(args)`: cleared, then parsed from the
      value of the first `-hrzones` switch that has one. */
  function ZonesFor(args: seq<string>): (r: Option<seq<Zone>>)
    ensures r.Some? ==> WellFormed(r.value)
  {
    var v := SwitchValue(args);
    if v.None? then Some([]) else ZonesParsed([], v.value)
  }

  /** A parse that succeeds on a non-empty value yields a zone for every
      limit given and the open zone, each with count zero, so that every
      heart rate up to 999 has a zone to be counted in. */
  lemma ParsedZonesCoverAll(value: string, hr: int)
    requires value != "" && ZonesParsed([], value).Some?
    ensures var z := ZonesParsed([], value).value;
      && OpenZoneLimit in Limits(z)
      && (forall k :: k in ParsedLimits(Split(value, ';')).value ==> k in Limits(z))
      && (forall i :: 0 <= i < |z| ==> z[i].count == 0)
      && (hr <= OpenZoneLimit ==> HasZoneFor(z, hr))
  {
    var ks := ParsedLimits(Split(value, ';')).value;
    var p := PutAll([], ks);
    PutAllKeys([], ks);
    PutAllEmpty([], ks);
    var z := Put(p, OpenZoneLimit, 0);
    PutLimits(p, OpenZoneLimit, 0);
    PutStoresZero(p, OpenZoneLimit);
    var lz := Limits(z);
    assert OpenZoneLimit in lz;
    var j :| 0 <= j < |lz| && lz[j] == OpenZoneLimit;
    assert z[j].limit >= hr || hr > OpenZoneLimit;
  }

  /** Inserting a key the dictionary does not hold appends it. */
  lemma {:induction false} PutNew(zones: seq<Zone>, limit: int, count: nat)
    requires limit !in Limits(zones)
    ensures Put(zones, limit, count) == zones + [Zone(limit, count)]
  {
    if zones != [] {
      assert Limits(zones) == [zones[0].limit] + Limits(zones[1..]);
      PutNew(zones[1..], limit, count);
      assert zones == [zones[0]] + zones[1..];
    }
  }

  lemma PutAllSnoc(zones: seq<Zone>, ks: seq<int>, k: int)
    ensures PutAll(zones, ks + [k]) == Put(PutAll(zones, ks), k, 0)
  {
    assert (ks + [k])[..|ks|] == ks;
  }

  /** With limits given as "130;140;150" the zones are 130, 140, 150 and the
      open zone 999, in that order; a trailing separator leaves an empty
      piece that `int()` rejects, so "130;140;" fails; a blank value leaves
      the zones empty. */
  lemma ZonesParsedExample()
    ensures ZonesParsed([], "130;140;150") == Some([Zone(130, 0), Zone(140, 0), Zone(150, 0), Zone(999, 0)])
    ensures ZonesParsed([], "130;140;") == None
    ensures ZonesParsed([], "") == Some([])
  {
    ExampleSplit();
    ExampleLimits();
    ExamplePuts();
  }

  lemma ExampleSplit()
    ensures Split("130;140;150", ';') == ["130", "140", "150"]
    ensures Split("130;140;", ';') == ["130", "140", ""]
  {
    assert Join(["130", "140", "150"], ';') == "130;140;150" by {
      assert ["130", "140", "150"][1..] == ["140", "150"];
      assert ["140", "150"][1..] == ["150"];
    }
    JoinSplit(["130", "140", "150"], ';');
    assert Join(["130", "140", ""], ';') == "130;140;" by {
      assert ["130", "140", ""][1..] == ["140", ""];
      assert ["140", ""][1..] == [""];
    }
    JoinSplit(["130", "140", ""], ';');
  }

  lemma ExampleLimits()
    ensures ParsedLimits(["130", "140", "150"]) == Some([130, 140, 150])
    ensures ParsedLimits(["130", "140", ""]) == None
  {
    ExampleNumbers();
    ParsedLimitsExact(["130", "140", "150"], [130, 140, 150]);
    ParsedLimitsRejects(["130", "140", ""], 2);
  }

  lemma ExampleNumbers()
    ensures ParseInt("130") == Some(130) && ParseInt("140") == Some(140) && ParseInt("150") == Some(150)
  {
    ParseDecimal(13, '0');
    ParseDecimal(14, '0');
    ParseDecimal(15, '0');
  }

  /** The three-digit numbers of the example parse to themselves. */
  lemma ParseDecimal(tens: nat, unit: char)
    requires 10 <= tens < 100 && unit == '0'
    ensures ParseInt(NatToString(tens * 10)) == Some(tens * 10)
    ensures NatToString(tens * 10) == [('0' as int + tens / 10) as char, ('0' as int + tens % 10) as char, unit]
  {
    IntRoundTrip(tens * 10);
    assert NatToString(tens / 10) == [('0' as int + tens / 10) as char];
  }

  lemma ExamplePuts()
    ensures Put(PutAll([], [130, 140, 150]), OpenZoneLimit, 0) == [Zone(130, 0), Zone(140, 0), Zone(150, 0), Zone(999, 0)]
  {
    var z1 := [Zone(130, 0)];
    var z2 := [Zone(130, 0), Zone(140, 0)];
    var z3 := [Zone(130, 0), Zone(140, 0), Zone(150, 0)];
    PutAllSnoc([], [], 130);
    PutNew([], 130, 0);
    assert PutAll([], [130]) == z1;
    PutAllSnoc([], [130], 140);
    PutNew(z1, 140, 0);
    assert PutAll([], [130, 140]) == z2;
    PutAllSnoc([], [130, 140], 150);
    PutNew(z2, 150, 0);
    assert PutAll([], [130, 140, 150]) == z3;
    PutNew(z3, 999, 0);
  }
}
