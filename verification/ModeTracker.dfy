/** The scanner of internal/ptysession/modes.go as an object updated in place, byte by byte. */
module ModeTracking {
  import opened Collections
  import opened Decimal
  import opened Ecma48
  import opened Modes

  class ModeTracker {
    var state: Scan
    var partial: seq<byte>
    var dec: map<int, bool>
    var kitty: seq<byte>
    var modOther: seq<byte>

    ghost function View(): Tracker
      reads this
    {
      Tracker(state, partial, dec, kitty, modOther)
    }

    constructor ()
      ensures View() == FRESH
    {
      state, partial, dec, kitty, modOther := Ground, [], map[], [], [];
    }

    method AtBoundary() returns (r: bool)
      ensures r == View().state.Ground?
    {
      r := state == Ground;
    }

    method Feed(p: seq<byte>)
      modifies this
      ensures View() == Modes.Feed(old(View()), p, AtMost(MAX_TRACKED_MODES))
    {
      ghost var t := View();
      for i := 0 to |p|
        invariant View() == Modes.Feed(t, p[..i], AtMost(MAX_TRACKED_MODES))
      {
        var b := p[i];
        assert p[..i + 1][..i] == p[..i];
        FeedByte(b);
      }
      assert p[..|p|] == p;
    }

    method FeedByte(b: byte)
      modifies this
      ensures View() == Step(old(View()), b, AtMost(MAX_TRACKED_MODES))
    {
      match state {
        case Ground =>
          if b == ESC {
            state := Esc;
            partial := [b];
          }
        case Esc =>
          partial := partial + [b];
          if b == BRACKET {
            state := Csi;
          } else {
            state := Ground;
            partial := [];
          }
        case Csi =>
          FeedCsiByte(b);
      }
    }

    method FeedCsiByte(b: byte)
      requires state.Csi?
      modifies this
      ensures View() == Step(old(View()), b, AtMost(MAX_TRACKED_MODES))
    {
      ghost var t := View();
      partial := partial + [b];
      if IsFinal(b) {
        CommitAnywhere(t, Csi, partial, partial, AtMost(MAX_TRACKED_MODES));
        CommitFinal(b);
        state := Ground;
        partial := [];
      } else if |partial| > MAX_PARTIAL {
        state := Ground;
        partial := [];
      }
    }

    method CommitFinal(final: byte)
      requires Finished(partial) && partial[|partial| - 1] == final
      modifies this
      ensures View() == Commit(old(View()), old(partial), AtMost(MAX_TRACKED_MODES))
    {
      var sq := partial;
      if |sq| < 3 {
        return;
      }
      var params := sq[2..|sq| - 1];
      if |params| == 0 {
        return;
      }
      if params[0] == QUERY {
        if final != SET && final != RESET {
          return;
        }
        SetAll(Split(params[1..], SEMICOLON), final == SET);
      } else if params[0] == GREATER || params[0] == EQUALS || params[0] == LESS {
        if final == KITTY {
          kitty := sq;
        } else if final == MODKEYS {
          if params[0] == GREATER {
            modOther := sq;
          }
        }
      }
    }

    method SetAll(fields: seq<seq<byte>>, on: bool)
      modifies this`dec
      ensures dec == SetFields(old(dec), fields, on, AtMost(MAX_TRACKED_MODES))
    {
      ghost var before := dec;
      for i := 0 to |fields|
        invariant dec == SetFields(before, fields[..i], on, AtMost(MAX_TRACKED_MODES))
      {
        assert fields[..i + 1][..i] == fields[..i];
        var n := Atoi(fields[i]);
        if n.Some? && (n.value in dec || |dec| < MAX_TRACKED_MODES) {
          dec := dec[n.value := on];
        }
      }
      assert fields[..|fields|] == fields;
    }

    method Prelude() returns (out: seq<byte>)
      ensures out == Modes.Prelude(View())
    {
      var nums := SortedModes();
      out := Render(nums);
      out := out + modOther;
      out := out + kitty;
    }

    /** The map is walked in no particular order; sorting makes the result a function of the modes. */
    method SortedModes() returns (nums: seq<int>)
      ensures nums == Sorted(dec.Keys - TRANSIENT)
    {
      nums := [];
      var rest := dec.Keys;
      while rest != {}
        invariant rest <= dec.Keys && Ascending(nums)
        invariant forall n :: n in nums <==> n in dec.Keys - rest - TRANSIENT
      {
        ghost var some := AMember(rest);
        var n :| n in rest;
        rest := rest - {n};
        if n !in TRANSIENT {
          nums := Insert(nums, n);
        }
      }
      AscendingUnique(nums, Sorted(dec.Keys - TRANSIENT));
    }

    method Render(nums: seq<int>) returns (out: seq<byte>)
      requires forall n :: n in nums ==> n in dec
      ensures out == ModesBytes(nums, dec)
    {
      out := [];
      for i := 0 to |nums|
        invariant out == ModesBytes(nums[..i], dec)
      {
        assert nums[..i + 1][..i] == nums[..i];
        out := out + ModeBytes(nums[i], dec[nums[i]]);
      }
      assert nums[..|nums|] == nums;
    }
  }

  /** One step of sorting: put a new number in its place. */
  method Insert(nums: seq<int>, n: int) returns (out: seq<int>)
    requires Ascending(nums) && n !in nums
    ensures Ascending(out) && (forall x :: x in out <==> x in nums || x == n)
  {
    var i := 0;
    while i < |nums| && nums[i] < n
      invariant i <= |nums| && forall j :: 0 <= j < i ==> nums[j] < n
    {
      i := i + 1;
    }
    out := nums[..i] + [n] + nums[i..];
    assert nums == nums[..i] + nums[i..];
  }
}
