/** How an archive that was cut off is told from one that ended: `Ends` in archive.rs. */
module Ends {
  import opened Disk

  /** The zero bytes a text ends in. */
  function Trailing(s: Content): (n: nat)
    ensures n <= |s|
    decreases |s|
  {
    if s == [] || s[|s| - 1] != 0 then 0 else 1 + Trailing(s[..|s| - 1])
  }

  lemma {:induction false} TrailingZeros(s: Content, n: nat)
    ensures n <= Trailing(s) <==> n <= |s| && forall i :: |s| - n <= i < |s| ==> s[i] == 0
    decreases |s|
  {
    if 0 < n <= |s| && s[|s| - 1] == 0 {
      var front := s[..|s| - 1];
      TrailingZeros(front, n - 1);
      assert forall i :: |front| - (n - 1) <= i < |front| ==> s[i] == front[i];
    }
  }

  lemma {:induction false} TrailingMore(all: Content, buf: Content)
    ensures Trailing(all + buf) == if Trailing(buf) == |buf| then Trailing(all) + |buf| else Trailing(buf)
    decreases |buf|
  {
    if buf == [] {
      assert all + buf == all;
    } else {
      var s := all + buf;
      assert s[|s| - 1] == buf[|buf| - 1] && s[..|s| - 1] == all + buf[..|buf| - 1];
      TrailingMore(all, buf[..|buf| - 1]);
    }
  }

  class Reader {
    var zeros: nat
    ghost var all: Content

    ghost predicate Valid()
      reads this
    {
      zeros == Trailing(all)
    }

    constructor ()
      ensures Valid() && all == []
    {
      zeros, all := 0, [];
    }

    /** One read of the stream under it, whatever size it comes in. */
    method Read(buf: Content)
      requires Valid()
      modifies this
      ensures Valid() && all == old(all) + buf
    {
      var tail := 0;
      assert buf[..|buf|] == buf;
      while tail < |buf| && buf[|buf| - 1 - tail] == 0
        invariant tail <= |buf| && Trailing(buf) == tail + Trailing(buf[..|buf| - tail])
      {
        var left := buf[..|buf| - tail];
        assert left[..|left| - 1] == buf[..|buf| - (tail + 1)];
        tail := tail + 1;
      }
      TrailingMore(all, buf);
      zeros := if tail == |buf| then zeros + |buf| else tail;
      all := all + buf;
    }

    /** Ended exactly when the last 512 bytes read are there and zero. */
    method Ended() returns (ended: bool)
      requires Valid()
      ensures ended <==> |all| >= 512 && forall i :: |all| - 512 <= i < |all| ==> all[i] == 0
    {
      TrailingZeros(all, 512);
      ended := zeros >= 512;
    }
  }
}
