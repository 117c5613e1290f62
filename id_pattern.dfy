/** The regular expression both extractors fall back on,
      ^.*(youtu.be\/|v\/|u\/\w\/|embed\/|watch\?v=|&v=)([^#&?]*).*
    written out as the search the JavaScript engine performs. `^.*` is
    greedy and `.` does not match a line terminator, so the engine first
    tries the marker at the end of the first line and backs off one
    character at a time; at each position it tries the alternatives in
    order. Capture group 2 and the trailing `.*` always match, so the first
    position (from the right) and the first alternative that match decide
    the result, and group 2 is the longest run free of '#', '&' and '?'
    after the marker. */
module IdPattern {
  import opened Js
  import opened Text

  /** `\w` */
  predicate IsWordChar(c: char)
  {
    'a' <= c <= 'z' || 'A' <= c <= 'Z' || IsDigit(c) || c == '_'
  }

  /** The characters that end capture group 2. */
  predicate IsIdStop(c: char)
  {
    c == '#' || c == '&' || c == '?'
  }

  /** `youtu.be\/` at `p`: the unescaped `.` matches any character except a
      line terminator. */
  predicate ShortHostAt(s: string, p: nat)
  {
    p + 9 <= |s| && s[p..p + 5] == "youtu" && !IsLineTerminator(s[p + 5]) && s[p + 6..p + 9] == "be/"
  }

  /** `u\/\w\/` at `p`. */
  predicate UserPathAt(s: string, p: nat)
  {
    p + 4 <= |s| && s[p] == 'u' && s[p + 1] == '/' && IsWordChar(s[p + 2]) && s[p + 3] == '/'
  }

  /** The length of the first alternative of capture group 1 that matches
      at `p`, in the order the pattern lists them. */
  function MarkerAt(s: string, p: nat): (r: Option<nat>)
    ensures r.Some? ==> 2 <= r.value && p + r.value <= |s|
    ensures r.Some? ==> s[p + r.value - 1] == '/' || s[p + r.value - 1] == '='
  {
    if ShortHostAt(s, p) then Some(9)
    else if OccursAt(s, "v/", p) then Some(2)
    else if UserPathAt(s, p) then Some(4)
    else if OccursAt(s, "embed/", p) then Some(6)
    else if OccursAt(s, "watch?v=", p) then Some(8)
    else if OccursAt(s, "&v=", p) then Some(3)
    else None
  }

  /** Where the first line ends: `.*` cannot run past it. */
  function LineEnd(s: string): (r: nat)
    ensures r <= |s|
    ensures forall i :: 0 <= i < r ==> !IsLineTerminator(s[i])
    ensures r < |s| ==> IsLineTerminator(s[r])
  {
    FirstOf(s, {'\n', '\r', '\U{2028}', '\U{2029}'})
  }

  /** The rightmost position at or before `k` where a marker matches: the
      greedy `^.*` backing off one character at a time. */
  function LastMarkerUpTo(s: string, k: nat): (r: Option<nat>)
    ensures r.Some? ==> r.value <= k && MarkerAt(s, r.value).Some?
    ensures r.Some? ==> forall q :: r.value < q <= k ==> MarkerAt(s, q).None?
    ensures r.None? ==> forall q :: 0 <= q <= k ==> MarkerAt(s, q).None?
    decreases k
  {
    if MarkerAt(s, k).Some? then Some(k)
    else if k == 0 then None
    else LastMarkerUpTo(s, k - 1)
  }

  /** The longest run of `s` from `q` on that holds no '#', '&' or '?':
      `[^#&?]*` matched greedily. */
  function IdRun(s: string, q: nat): (r: string)
    requires q <= |s|
    ensures q + |r| <= |s| && r == s[q..q + |r|]
    ensures forall i :: 0 <= i < |r| ==> !IsIdStop(r[i])
    ensures q + |r| == |s| || IsIdStop(s[q + |r|])
  {
    var rest := s[q..];
    var e := FirstOf(rest, {'#', '&', '?'});
    assert forall i :: 0 <= i < e ==> rest[..e][i] == rest[i];
    rest[..e]
  }

  /** What `s.match(pattern)` finds: where group 1 starts, how long it is,
      and capture group 2. */
  datatype Capture = Capture(start: nat, markerLength: nat, id: string)

  /** `s.match(pattern)`, reduced to the captures the callers read. A match
      starts at the rightmost marker within the first line, uses the first
      alternative that matches there, and captures the maximal stop-free
      run after it; there is no match exactly when no marker starts within
      the first line. */
  function Exec(s: string): (r: Option<Capture>)
    ensures r.None? <==> forall q :: 0 <= q <= LineEnd(s) ==> MarkerAt(s, q).None?
    ensures r.Some? ==> r.value.start <= LineEnd(s) && MarkerAt(s, r.value.start) == Some(r.value.markerLength)
    ensures r.Some? ==> forall q :: r.value.start < q <= LineEnd(s) ==> MarkerAt(s, q).None?
    ensures r.Some? ==> var q := r.value.start + r.value.markerLength;
                        q + |r.value.id| <= |s| && r.value.id == s[q..q + |r.value.id|]
                        && (q + |r.value.id| == |s| || IsIdStop(s[q + |r.value.id|]))
    ensures r.Some? ==> forall i :: 0 <= i < |r.value.id| ==> !IsIdStop(r.value.id[i])
  {
    match LastMarkerUpTo(s, LineEnd(s))
    case None => None
    case Some(p) =>
      var len := MarkerAt(s, p).value;
      Some(Capture(p, len, IdRun(s, p + len)))
  }

  /** `match && match[2].length === 11 ? match[2] : null`: an identifier of
      exactly eleven characters, none of them '#', '&' or '?'. */
  function MatchId(s: string): (r: Option<string>)
    ensures r.Some? ==> |r.value| == 11 && forall i :: 0 <= i < 11 ==> !IsIdStop(r.value[i])
    ensures r.Some? <==> Exec(s).Some? && |Exec(s).value.id| == 11
    ensures r.Some? ==> r.value == Exec(s).value.id
  {
    var m := Exec(s);
    if m.Some? && |m.value.id| == 11 then Some(m.value.id) else None
  }

  // ---------------------------------------------------------------------
  // Short links

  /** The first two characters of some marker. */
  predicate MarkerPair(a: char, b: char)
  {
    (a == 'y' && b == 'o') || (a == 'v' && b == '/') || (a == 'u' && b == '/')
    || (a == 'e' && b == 'm') || (a == 'w' && b == 'a') || (a == '&' && b == 'v')
  }

  /** No two neighbouring characters of `x` could start a marker. */
  predicate NoMarkerPair(x: string)
  {
    forall i :: 0 <= i < |x| - 1 ==> !MarkerPair(x[i], x[i + 1])
  }

  /** No line terminator: `.` matches every character of `x`. */
  predicate OneLine(x: string)
  {
    forall i :: 0 <= i < |x| ==> !IsLineTerminator(x[i])
  }

  /** A marker can start only where its first two characters do. */
  lemma NoPairNoMarker(s: string, p: nat)
    requires !(p + 1 < |s| && MarkerPair(s[p], s[p + 1]))
    ensures MarkerAt(s, p).None?
  {
    assert !ShortHostAt(s, p) by {
      if p + 9 <= |s| { assert s[p..p + 5][0] == s[p] && s[p..p + 5][1] == s[p + 1]; }
    }
    assert !OccursAt(s, "v/", p) by {
      if p + 2 <= |s| { assert s[p..p + 2][0] == s[p] && s[p..p + 2][1] == s[p + 1]; }
    }
    assert !OccursAt(s, "embed/", p) by {
      if p + 6 <= |s| { assert s[p..p + 6][0] == s[p] && s[p..p + 6][1] == s[p + 1]; }
    }
    assert !OccursAt(s, "watch?v=", p) by {
      if p + 8 <= |s| { assert s[p..p + 8][0] == s[p] && s[p..p + 8][1] == s[p + 1]; }
    }
    assert !OccursAt(s, "&v=", p) by {
      if p + 3 <= |s| { assert s[p..p + 3][0] == s[p] && s[p..p + 3][1] == s[p + 1]; }
    }
  }

  lemma NoMarkerPairJoin(x: string, y: string)
    requires NoMarkerPair(x) && NoMarkerPair(y)
    requires x != [] && y != [] ==> !MarkerPair(x[|x| - 1], y[0])
    ensures NoMarkerPair(x + y)
  {
    forall i | 0 <= i < |x + y| - 1 ensures !MarkerPair((x + y)[i], (x + y)[i + 1]) {
      if i + 1 < |x| {
        assert (x + y)[i] == x[i] && (x + y)[i + 1] == x[i + 1];
      } else if i >= |x| {
        assert (x + y)[i] == y[i - |x|] && (x + y)[i + 1] == y[i + 1 - |x|];
      } else {
        assert (x + y)[i] == x[|x| - 1] && (x + y)[i + 1] == y[0];
      }
    }
  }

  lemma OneLineJoin(x: string, y: string)
    requires OneLine(x) && OneLine(y)
    ensures OneLine(x + y)
  {
    forall i | 0 <= i < |x + y| ensures !IsLineTerminator((x + y)[i]) {
      if i >= |x| { assert (x + y)[i] == y[i - |x|]; }
    }
  }

  /** No marker starts anywhere in a suffix without marker pairs. */
  lemma NoMarkerFrom(s: string, a: nat)
    requires a <= |s| && NoMarkerPair(s[a..])
    ensures forall p :: a <= p <= |s| ==> MarkerAt(s, p).None?
  {
    forall p | a <= p <= |s| ensures MarkerAt(s, p).None? {
      if p + 1 < |s| {
        assert s[a..][p - a] == s[p] && s[a..][p - a + 1] == s[p + 1];
      }
      NoPairNoMarker(s, p);
    }
  }

  /** `https://youtu.be/<id>?<q>` is one line, and after the marker at 8
      no two characters could start another marker. */
  lemma ShortLinkLayout(id: string, q: string)
    requires NoMarkerPair(id) && NoMarkerPair(q) && OneLine(id) && OneLine(q)
    ensures var s := "https://youtu.be/" + id + "?" + q;
            |s| >= 17 && OneLine(s) && NoMarkerPair(s[9..])
  {
    var s := "https://youtu.be/" + id + "?" + q;
    var head, tail := "https://y", "outu.be/";
    assert "https://youtu.be/" == head + tail;
    assert NoMarkerPair(tail) && OneLine(head) && OneLine(tail) && OneLine("?");
    NoMarkerPairJoin(tail, id);
    NoMarkerPairJoin(tail + id, "?");
    NoMarkerPairJoin(tail + id + "?", q);
    assert s[9..] == tail + id + "?" + q;
    OneLineJoin(head, tail);
    OneLineJoin(head + tail, id);
    OneLineJoin(head + tail + id, "?");
    OneLineJoin(head + tail + id + "?", q);
    assert s == head + tail + id + "?" + q;
  }

  /** A one-line text that starts with `https://youtu.be/` and has no
      marker pair after that marker matches at 8, with the 9-character
      marker. */
  lemma ShortLinkMarker(s: string)
    requires |s| >= 17 && s[..17] == "https://youtu.be/"
    requires OneLine(s) && NoMarkerPair(s[9..])
    ensures Exec(s).Some? && Exec(s).value.start == 8 && Exec(s).value.markerLength == 9
  {
    NoMarkerFrom(s, 9);
    FirstOfUnique(s, {'\n', '\r', '\U{2028}', '\U{2029}'}, |s|);
    assert LineEnd(s) == |s|;
    assert s[8..13] == s[..17][8..13] == "youtu";
    assert s[14..17] == s[..17][14..17] == "be/";
    assert s[13] == s[..17][13] == '.';
    assert MarkerAt(s, 8) == Some(9);
  }

  /** The pattern reads the ID out of a short link `https://youtu.be/<id>?<q>`
      when neither the ID nor the query holds a line terminator or could
      start a marker, and the ID holds no '#', '&' or '?'. */
  lemma ShortLinkMatchesId(id: string, q: string)
    requires |id| == 11 && NoMarkerPair(id) && NoMarkerPair(q) && OneLine(id) && OneLine(q)
    requires forall i :: 0 <= i < |id| ==> !IsIdStop(id[i])
    ensures MatchId("https://youtu.be/" + id + "?" + q) == Some(id)
  {
    var s := "https://youtu.be/" + id + "?" + q;
    ShortLinkLayout(id, q);
    assert s[..17] == "https://youtu.be/";
    ShortLinkMarker(s);
    var m := Exec(s).value;
    assert s[17..28] == id && s[28] == '?';
    assert forall k :: 17 <= k < 28 ==> !IsIdStop(s[k]);
    assert |m.id| == 11;
  }
}
