/**
 The quick row of call reactions and the recently used list behind it (server/assets/call_reactions.js,
 which shares the list with server/assets/reactions.js). Strings are UTF-16 code units.
 */
module Reactions {
  type Unit = x: int | 0 <= x < 0x1_0000

  type Text = seq<Unit>

  const Defaults: seq<Text> := [[0xD83D, 0xDC4D], [0xD83C, 0xDF89], [0x2764, 0xFE0F], [0xD83D, 0xDE02],
                                [0xD83D, 0xDE2E], [0xD83D, 0xDE22], [0xD83E, 0xDD14], [0xD83D, 0xDC4F]]

  const TrayCap := 8
  const RecentMax := 16
  const LongestRecorded := 6

  /** The symbols that show as text unless U+FE0F follows. */
  predicate TextStyle(u: Unit) {
    u in {0x2764, 0x270A, 0x270B, 0x270C, 0x261D, 0x263A, 0x2639, 0x2615,
          0x2618, 0x2702, 0x2708, 0x26A0, 0x2660, 0x2663, 0x2665, 0x2666}
  }

  function Canon(g: Text): (c: Text)
    ensures g != [] ==> c != [] && c[0] == g[0]
    ensures |c| > 1 ==> c == g || c == g + [0xFE0F]
  {
    if |g| == 1 && TextStyle(g[0]) then g + [0xFE0F] else g
  }

  lemma CanonTwice(g: Text)
    ensures Canon(Canon(g)) == Canon(g)
  {
  }

  predicate White(u: Unit) {
    || 0x9 <= u <= 0xD || u == 0x20 || u == 0xA0 || u == 0x1680 || 0x2000 <= u <= 0x200A
    || u == 0x2028 || u == 0x2029 || u == 0x202F || u == 0x205F || u == 0x3000 || u == 0xFEFF
  }

  function Trim(s: Text): (t: Text)
    ensures t != [] ==> !White(t[0]) && !White(t[|t| - 1])
    ensures (forall i :: 0 <= i < |s| ==> s[i] >= 128) ==> forall i :: 0 <= i < |t| ==> t[i] >= 128
    ensures |t| <= |s|
    ensures s != [] && !White(s[0]) && !White(s[|s| - 1]) ==> t == s
    decreases |s|
  {
    if s == [] then [] else if White(s[0]) then Trim(s[1..]) else if White(s[|s| - 1]) then Trim(s[..|s| - 1]) else s
  }

  predicate IsLikelyEmoji(s: Text) {
    var t := Trim(s);
    t != [] && |t| <= 32 && forall i :: 0 <= i < |t| ==> t[i] >= 128
  }

  // ----- the recently used list -----

  function Without<T(==)>(xs: seq<T>, g: T): (r: seq<T>)
    ensures |r| <= |xs|
  {
    if xs == [] then [] else (if xs[0] == g then [] else [xs[0]]) + Without(xs[1..], g)
  }

  function CanonAll(xs: seq<Text>): seq<Text> {
    if xs == [] then [] else [Canon(xs[0])] + CanonAll(xs[1..])
  }

  /** The glyph as it is recorded, if it is. */
  function Recorded(glyph: Text): Text {
    Canon(Trim(glyph))
  }

  predicate Recordable(glyph: Text) {
    Recorded(glyph) != [] && |Recorded(glyph)| <= LongestRecorded
  }

  function Take<T>(xs: seq<T>, n: nat): seq<T> {
    if |xs| <= n then xs else xs[..n]
  }

  /** One pick during a call. */
  function Pick(stored: seq<Text>, glyph: Text): seq<Text> {
    if !Recordable(glyph) then stored
    else Take([Recorded(glyph)] + Without(CanonAll(stored), Recorded(glyph)), RecentMax)
  }

  function PickAll(stored: seq<Text>, picks: seq<Text>): seq<Text> {
    if picks == [] then stored else Pick(PickAll(stored, picks[..|picks| - 1]), picks[|picks| - 1])
  }

  /** The same without a bound: distinct glyphs, the most recently picked first. */
  function Recent(picks: seq<Text>): seq<Text> {
    if picks == [] then []
    else
      var g := picks[|picks| - 1];
      var before := Recent(picks[..|picks| - 1]);
      if !Recordable(g) then before else [Recorded(g)] + Without(before, Recorded(g))
  }

  predicate Distinct<T(==)>(xs: seq<T>) {
    forall i, j :: 0 <= i < j < |xs| ==> xs[i] != xs[j]
  }

  lemma DistinctCons<T>(xs: seq<T>)
    requires xs != []
    ensures Distinct(xs) <==> xs[0] !in xs[1..] && Distinct(xs[1..])
  {
    if xs[0] !in xs[1..] && Distinct(xs[1..]) {
      forall i, j | 0 <= i < j < |xs|
        ensures xs[i] != xs[j]
      {
        assert xs[j] == xs[1..][j - 1] && xs[j] in xs[1..];
        assert i > 0 ==> xs[i] == xs[1..][i - 1];
      }
    }
  }

  lemma {:induction false} WithoutMembers<T>(xs: seq<T>, g: T)
    ensures forall x :: x in Without(xs, g) <==> x in xs && x != g
  {
    if xs != [] {
      WithoutMembers(xs[1..], g);
      assert xs == [xs[0]] + xs[1..];
    }
  }

  lemma {:induction false} WithoutMember<T>(xs: seq<T>, g: T, i: nat)
    requires i < |Without(xs, g)|
    ensures Without(xs, g)[i] in xs && Without(xs, g)[i] != g
  {
    if xs[0] == g {
      WithoutMember(xs[1..], g, i);
    } else if i > 0 {
      WithoutMember(xs[1..], g, i - 1);
    }
  }

  lemma {:induction false} WithoutDistinct<T>(xs: seq<T>, g: T)
    requires Distinct(xs)
    ensures Distinct(Without(xs, g))
    ensures |Without(xs, g)| == if g in xs then |xs| - 1 else |xs|
  {
    if xs != [] {
      DistinctCons(xs);
      WithoutDistinct(xs[1..], g);
      WithoutMembers(xs[1..], g);
      assert xs == [xs[0]] + xs[1..];
      if xs[0] != g {
        var w := Without(xs, g);
        assert w[1..] == Without(xs[1..], g);
        DistinctCons(w);
      }
    }
  }

  lemma {:induction false} WithoutAbsent<T>(xs: seq<T>, g: T)
    requires g !in xs
    ensures Without(xs, g) == xs
  {
    if xs != [] {
      WithoutAbsent(xs[1..], g);
    }
  }

  lemma TakeCons<T>(x: T, xs: seq<T>, n: nat)
    ensures Take([x] + xs, n + 1) == [x] + Take(xs, n)
  {
  }

  /** Taking away a glyph and cutting: enough is left of a list that was cut before. */
  lemma {:induction false} CutBefore<T>(xs: seq<T>, g: T, n: nat)
    requires Distinct(xs)
    ensures Take(Without(Take(xs, n + 1), g), n) == Take(Without(xs, g), n)
  {
    if |xs| > n + 1 {
      var x, rest := xs[0], xs[1..];
      assert xs == [x] + rest;
      DistinctCons(xs);
      TakeCons(x, rest, n);
      var cut := Take(rest, n);
      assert ([x] + cut)[1..] == cut;
      if x == g {
        WithoutAbsent(rest, g);
        WithoutAbsent(cut, g);
      } else if n > 0 {
        CutBefore(rest, g, n - 1);
        TakeCons(x, Without(cut, g), n - 1);
        TakeCons(x, Without(rest, g), n - 1);
      }
    }
  }

  lemma {:induction false} RecentDistinct(picks: seq<Text>)
    ensures Distinct(Recent(picks))
    ensures forall g :: g in Recent(picks) ==> Canon(g) == g
  {
    if picks != [] {
      var n := |picks| - 1;
      RecentDistinct(picks[..n]);
      var before, g := Recent(picks[..n]), Recorded(picks[n]);
      WithoutMembers(before, g);
      WithoutDistinct(before, g);
      CanonTwice(Trim(picks[n]));
      if Recordable(picks[n]) {
        assert ([g] + Without(before, g))[1..] == Without(before, g);
        DistinctCons([g] + Without(before, g));
      }
    }
  }

  lemma {:induction false} AlreadyCanon(xs: seq<Text>)
    requires forall g :: g in xs ==> Canon(g) == g
    ensures CanonAll(xs) == xs
  {
    if xs != [] {
      AlreadyCanon(xs[1..]);
    }
  }

  /** The stored list is always the beginning of the unbounded one: nothing that should still be in it has been dropped. */
  lemma {:induction false} StoredIsRecent(picks: seq<Text>)
    ensures PickAll([], picks) == Take(Recent(picks), RecentMax)
  {
    if picks != [] {
      var n := |picks| - 1;
      StoredIsRecent(picks[..n]);
      RecentDistinct(picks[..n]);
      var before, g := Recent(picks[..n]), Recorded(picks[n]);
      if Recordable(picks[n]) {
        AlreadyCanon(Take(before, RecentMax));
        CutBefore(before, g, RecentMax - 1);
        TakeCons(g, Without(Take(before, RecentMax), g), RecentMax - 1);
        TakeCons(g, Without(before, g), RecentMax - 1);
      }
    }
  }

  /** One more than the position of the last pick that was recorded as `g`, or 0. */
  function LastUse(picks: seq<Text>, g: Text): nat {
    if picks == [] then 0
    else if Recordable(picks[|picks| - 1]) && Recorded(picks[|picks| - 1]) == g then |picks|
    else LastUse(picks[..|picks| - 1], g)
  }

  lemma {:induction false} UsedBefore(picks: seq<Text>, g: Text)
    ensures LastUse(picks, g) <= |picks|
    ensures g in Recent(picks) <==> LastUse(picks, g) > 0
  {
    if picks != [] {
      var n := |picks| - 1;
      UsedBefore(picks[..n], g);
      WithoutMembers(Recent(picks[..n]), Recorded(picks[n]));
    }
  }

  lemma {:induction false} WithoutKeepsOrder<T>(xs: seq<T>, g: T, i: nat, j: nat) returns (k: nat, l: nat)
    requires i < j < |Without(xs, g)|
    ensures k < l < |xs| && xs[k] == Without(xs, g)[i] && xs[l] == Without(xs, g)[j] && xs[k] != g && xs[l] != g
  {
    if xs[0] == g {
      k, l := WithoutKeepsOrder(xs[1..], g, i, j);
      k, l := k + 1, l + 1;
    } else if i == 0 {
      k := 0;
      WithoutMembers(xs[1..], g);
      var y := Without(xs[1..], g)[j - 1];
      assert y in Without(xs[1..], g);
      WithoutMember(xs[1..], g, j - 1);
      l :| 1 <= l < |xs| && xs[l] == y;
    } else {
      k, l := WithoutKeepsOrder(xs[1..], g, i - 1, j - 1);
      k, l := k + 1, l + 1;
    }
  }

  /** The list is in order of last use, and holds exactly the glyphs that were used. */
  lemma {:induction false} RecentByLastUse(picks: seq<Text>, i: nat, j: nat)
    requires i < j < |Recent(picks)|
    ensures LastUse(picks, Recent(picks)[i]) > LastUse(picks, Recent(picks)[j])
  {
    hide Recordable, Recorded;
    var n := |picks| - 1;
    var before, g := Recent(picks[..n]), Recorded(picks[n]);
    if !Recordable(picks[n]) {
      RecentByLastUse(picks[..n], i, j);
    } else {
      var rest := Without(before, g);
      WithoutMembers(before, g);
      if i == 0 {
        assert rest[j - 1] in rest;
        UsedBefore(picks[..n], rest[j - 1]);
      } else {
        var k, l := WithoutKeepsOrder(before, g, i - 1, j - 1);
        RecentByLastUse(picks[..n], k, l);
      }
    }
  }

  // ----- the quick row -----

  /** One more candidate for the row. */
  function Offered(out: seq<Text>, raw: Text, cap: nat): seq<Text> {
    var e := Canon(raw);
    if e != [] && e !in out && |out| < cap then out + [e] else out
  }

  function OfferAll(out: seq<Text>, raws: seq<Text>, cap: nat): seq<Text>
    decreases raws
  {
    if raws == [] then out else OfferAll(Offered(out, raws[0], cap), raws[1..], cap)
  }

  method TrayOrder(preferred: seq<Text>, defaults: seq<Text>, cap: nat) returns (out: seq<Text>)
    ensures out == OfferAll([], preferred + defaults, cap)
    ensures Distinct(out) && |out| <= cap
    ensures |out| == cap || forall raw :: raw in preferred + defaults && Canon(raw) != [] ==> Canon(raw) in out
  {
    hide Canon;
    var raws := preferred + defaults;
    out := [];
    var i := 0;
    assert raws[0..] == raws;
    while i < |raws|
      invariant i <= |raws| && OfferAll(out, raws[i..], cap) == OfferAll([], raws, cap)
    {
      assert raws[i..][1..] == raws[i + 1..];
      var e := Canon(raws[i]);
      if e != [] && e !in out && |out| < cap {
        out := out + [e];
      }
      i := i + 1;
    }
    assert raws[|raws|..] == [];
    OffersKept([], raws, cap);
  }

  lemma {:induction false} OffersKept(out: seq<Text>, raws: seq<Text>, cap: nat)
    requires Distinct(out) && |out| <= cap
    ensures var all := OfferAll(out, raws, cap);
            && out <= all && Distinct(all) && |all| <= cap
            && (|all| == cap || forall raw :: raw in raws && Canon(raw) != [] ==> Canon(raw) in all)
    decreases raws
  {
    if raws != [] {
      var offered, all := Offered(out, raws[0], cap), OfferAll(out, raws, cap);
      OffersKept(offered, raws[1..], cap);
      assert forall e :: e in offered ==> e in all[..|offered|] && e in all;
      if |all| < cap {
        forall raw | raw in raws && Canon(raw) != []
          ensures Canon(raw) in all
        {
          assert raw == raws[0] || raw in raws[1..];
        }
      }
    }
  }

  /** Distinct elements of a list are no more than the list is long. */
  lemma {:induction false} DistinctFits<T>(a: seq<T>, b: seq<T>)
    requires Distinct(a) && forall x :: x in a ==> x in b
    ensures |a| <= |b|
  {
    if a != [] {
      DistinctCons(a);
      assert a[0] in a && a[0] in b;
      var k :| 0 <= k < |b| && b[k] == a[0];
      var less := b[..k] + b[k + 1..];
      forall x | x in a[1..]
        ensures x in less
      {
        assert x in a && x in b;
        var j :| 0 <= j < |b| && b[j] == x;
        assert x == if j < k then less[j] else less[j - 1];
      }
      DistinctFits(a[1..], less);
    }
  }

  lemma DefaultsAreDistinct()
    ensures Distinct(Defaults) && |Defaults| == TrayCap
    ensures forall d :: d in Defaults ==> Canon(d) == d && d != []
  {
    assert forall i, j :: 0 <= i < j < |Defaults| ==> Defaults[i][1] != Defaults[j][1];
  }

  function Likely(xs: seq<Text>): seq<Text> {
    if xs == [] then [] else (if IsLikelyEmoji(xs[0]) then [xs[0]] else []) + Likely(xs[1..])
  }

  /** The row shown for a stored list and the list of frequent emoji the server knows. */
  function Row(stored: seq<Text>, frequent: seq<Text>): seq<Text> {
    OfferAll([], Likely(stored + frequent) + Defaults, TrayCap)
  }

  /** Whatever is stored and whatever the server answers, the row has exactly eight different glyphs. */
  lemma RowHasEight(stored: seq<Text>, frequent: seq<Text>)
    ensures |Row(stored, frequent)| == TrayCap && Distinct(Row(stored, frequent))
  {
    var preferred := Likely(stored + frequent);
    OffersKept([], preferred + Defaults, TrayCap);
    DefaultsAreDistinct();
    var row := Row(stored, frequent);
    if |row| < TrayCap {
      forall d | d in Defaults
        ensures d in row
      {
        assert d in preferred + Defaults && Canon(d) == d;
      }
      DistinctFits(Defaults, row);
    }
  }

  /** What is recorded is shown: recording changes nothing that the row's filter looks at. */
  lemma RecordedIsLikely(emoji: Text)
    requires IsLikelyEmoji(emoji) && Recordable(emoji)
    ensures IsLikelyEmoji(Recorded(emoji)) && Canon(Recorded(emoji)) == Recorded(emoji)
  {
    var t := Trim(emoji);
    CanonTwice(t);
    assert Recorded(emoji) == t || Recorded(emoji) == t + [0xFE0F];
    assert Trim(Recorded(emoji)) == Recorded(emoji);
  }

  predicate LedBy(row: seq<Text>, g: Text) {
    row != [] && row[0] == g
  }

  /** A list that starts with a glyph fit to be shown makes a row that starts with it. */
  lemma RowLedBy(g: Text, rest: seq<Text>, frequent: seq<Text>)
    requires IsLikelyEmoji(g) && Canon(g) == g && g != []
    ensures LedBy(Row([g] + rest, frequent), g)
  {
    var raws := Likely([g] + rest + frequent) + Defaults;
    assert [g] + rest + frequent == [g] + (rest + frequent);
    assert ([g] + (rest + frequent))[1..] == rest + frequent;
    assert raws == [g] + (Likely(rest + frequent) + Defaults);
    var more := Likely(rest + frequent) + Defaults;
    assert raws[0] == g && raws[1..] == more;
    assert Offered([], g, TrayCap) == [g];
    OffersKept([g], more, TrayCap);
  }

  /**
   Sending an emoji puts it first in the row exactly when it is at most six code units long as it is
   recorded, or was first already: a longer one, such as a family, is sent but not remembered.
   */
  lemma SentEmojiLeads(stored: seq<Text>, frequent: seq<Text>, emoji: Text)
    requires IsLikelyEmoji(emoji)
    ensures LedBy(Row(Pick(stored, emoji), frequent), Recorded(emoji))
            <==> |Recorded(emoji)| <= LongestRecorded || LedBy(Row(stored, frequent), Recorded(emoji))
  {
    hide Row, IsLikelyEmoji;
    RecordedNotEmpty(emoji);
    if Recordable(emoji) {
      var rest := Without(CanonAll(stored), Recorded(emoji));
      TakeCons(Recorded(emoji), rest, RecentMax - 1);
      RecordedIsLikely(emoji);
      RowLedBy(Recorded(emoji), Take(rest, RecentMax - 1), frequent);
    }
  }

  /** A family of three: eight code units. */
  const Family: Text := [0xD83D, 0xDC68, 0x200D, 0xD83D, 0xDC69, 0x200D, 0xD83D, 0xDC67]

  lemma FamilyIsOneGlyph()
    ensures IsLikelyEmoji(Family) && Recorded(Family) == Family
  {
    assert Trim(Family) == Family;
  }

  /** It is sent, leaves the storage as it was, and does not lead the row: on a new device the first default does. */
  lemma FamilyDoesNotLead()
    ensures IsLikelyEmoji(Family) && Pick([], Family) == [] && !LedBy(Row(Pick([], Family), []), Family)
  {
    FamilyIsOneGlyph();
    hide Trim, IsLikelyEmoji;
    var first := Defaults[0];
    assert Likely([]) == [] && [] + Defaults == Defaults;
    assert Canon(first) == first && Offered([], first, TrayCap) == [first];
    OffersKept([first], Defaults[1..], TrayCap);
    assert Row([], [])[0] == first && first[1] != Family[1];
  }

  lemma RecordedNotEmpty(emoji: Text)
    requires IsLikelyEmoji(emoji)
    ensures Recorded(emoji) != []
  {
  }

  /** The device's storage and one call's reaction tray. */
  class ReactionTray {
    var stored: seq<Text>
    var row: seq<Text>

    constructor (s: seq<Text>)
      ensures stored == s && row == []
    {
      stored, row := s, [];
    }

    method RecordRecent(glyph: Text)
      modifies this
      ensures stored == Pick(old(stored), glyph) && row == old(row)
    {
      var g := Canon(Trim(glyph));
      if g == [] || |g| > LongestRecorded {
        return;
      }
      var arr := Without(CanonAll(stored), g);
      arr := [g] + arr;
      stored := if |arr| <= RecentMax then arr else arr[..RecentMax];
    }

    method RenderRow(frequent: seq<Text>)
      modifies this
      ensures stored == old(stored) && row == Row(stored, frequent)
      ensures |row| == TrayCap && Distinct(row)
    {
      RowHasEight(stored, frequent);
      row := TrayOrder(Likely(stored + frequent), Defaults, TrayCap);
    }

    /** Only what looks like an emoji, and only with somewhere to send it, is sent and remembered. */
    method Send(emoji: Text, connected: bool) returns (sent: bool)
      modifies this
      ensures sent == (IsLikelyEmoji(emoji) && connected) && row == old(row)
      ensures stored == if sent then Pick(old(stored), emoji) else old(stored)
    {
      if !IsLikelyEmoji(emoji) || !connected {
        return false;
      }
      RecordRecent(emoji);
      return true;
    }
  }

  // ----- announcing a batch -----

  function Count<T(==)>(xs: seq<T>, x: T): nat {
    if xs == [] then 0 else Count(xs[..|xs| - 1], x) + if xs[|xs| - 1] == x then 1 else 0
  }

  lemma {:induction false} CountPrefix<T>(xs: seq<T>, n: nat, x: T)
    requires n <= |xs|
    ensures Count(xs[..n], x) <= Count(xs, x)
  {
    if n < |xs| {
      assert xs[..|xs| - 1][..n] == xs[..n];
      CountPrefix(xs[..|xs| - 1], n, x);
    } else {
      assert xs[..n] == xs;
    }
  }

  lemma CountNext(xs: seq<Text>, i: nat)
    requires i < |xs|
    ensures forall x :: Count(xs[..i + 1], x) == Count(xs[..i], x) + if xs[i] == x then 1 else 0
  {
    assert xs[..i + 1][..i] == xs[..i];
  }

  lemma CountNothing(xs: seq<Text>)
    ensures forall x :: Count(xs[..0], x) == 0
  {
  }

  /** No shorter prefix holds more of anything than was counted. */
  lemma CountsBelow(xs: seq<Text>, i: nat, bound: nat)
    requires i <= |xs| && forall x :: Count(xs[..i], x) < bound
    ensures forall x, n: nat :: n < i + 1 ==> Count(xs[..n], x) < bound
  {
    forall x, n: nat | n < i + 1
      ensures Count(xs[..n], x) < bound
    {
      assert xs[..i][..n] == xs[..n];
      CountPrefix(xs[..i], n, x);
    }
  }

  /** The emoji named for a batch: none is in it more often, and of those as frequent it got there first. */
  method MostCommon(emoji: seq<Text>) returns (best: Text, ghost at: nat)
    requires emoji != []
    ensures best in emoji && forall e :: Count(emoji, e) <= Count(emoji, best)
    ensures at <= |emoji| && Count(emoji[..at], best) == Count(emoji, best)
    ensures forall e, n: nat :: n < at ==> Count(emoji[..n], e) < Count(emoji, best)
  {
    hide Count;
    CountNothing(emoji);
    var counts: map<Text, nat>, bestN := map[], 0;
    best, at := emoji[0], 0;
    var i := 0;
    while i < |emoji|
      invariant i <= |emoji| && at <= i && best in emoji
      invariant forall e :: Count(emoji[..i], e) == if e in counts then counts[e] else 0
      invariant forall e :: Count(emoji[..i], e) <= bestN
      invariant Count(emoji[..at], best) == bestN
      invariant forall e, n: nat :: n < at ==> Count(emoji[..n], e) < bestN
    {
      var e := emoji[i];
      CountNext(emoji, i);
      counts := counts[e := (if e in counts then counts[e] else 0) + 1];
      if counts[e] > bestN {
        CountsBelow(emoji, i, counts[e]);
        bestN := counts[e];
        best, at := e, i + 1;
      }
      i := i + 1;
    }
    assert emoji[..|emoji|] == emoji;
    CountPrefix(emoji, at, best);
  }
}
