/** The buffer behind a label (records/labels/labels.go). bytes.Map returns a slice of a
    buffer as long as the name in bytes, zero behind the mapped characters, and Go lets a
    slice reach up to the end of its buffer. */
module LabelBuffer {
  import opened Labels
  import opened Text

  const NUL: char := '\0'

  function Nuls(n: nat): string { seq(n, _ => NUL) }

  /** The length of a character in UTF-8. */
  function Width(c: char): nat {
    if c < '\U{80}' then 1 else if c < '\U{800}' then 2 else if c < '\U{10000}' then 3 else 4
  }

  function ByteLength(name: string): (n: nat)
    ensures |MapName(name)| <= n
  {
    if name == "" then 0 else ByteLength(name[..|name| - 1]) + Width(name[|name| - 1])
  }

  /** The part of the buffer behind the mapped characters. */
  function Spare(name: string): string { Nuls(ByteLength(name) - |MapName(name)|) }

  /** The head, refilled from the tail and from what the buffer holds behind it; None is the
      slice out of range. */
  function RefilledIn(head: string, tail: string, spare: string, size: nat): Option<string>
    requires |head| <= size
  {
    if |head| == size then Some(head)
    else if |tail| == 0 then Some(head)
    else if size - |head| > |tail| + |spare| then None
    else Some(head + (tail + spare)[..size - |head|])
  }

  /** trimCut on the mapped characters and the rest of their buffer. */
  function TrimCutIn(
    mapped: string, spare: string, maxlen: nat, left: set<char>, right: set<char>): Option<string> {
    var trim := TrimLeft(mapped, left);
    var size := Min(|trim|, maxlen);
    RefilledIn(TrimRight(trim[..size], right), TrimLeft(trim[size..], right), spare, size)
  }

  /** label. */
  function LabelIn(name: string, maxlen: nat, left: set<char>, right: set<char>): Option<string> {
    TrimCutIn(MapName(name), Spare(name), maxlen, left, right)
  }

  // ----- trimCut as it runs

  /** trimCut on a buffer of which the first len characters are the mapped name. */
  function CutBuffer(buffer: string, len: nat, maxlen: nat, left: set<char>, right: set<char>): Option<string>
    requires len <= |buffer|
  {
    TrimCutIn(buffer[..len], buffer[len..], maxlen, left, right)
  }

  /** On one backing array: the label ends up in buf[start..end], the tail having been moved
      down over the trimmed right end of the head. */
  method TrimCut(buf: array<char>, len: nat, maxlen: nat, left: set<char>, right: set<char>)
    returns (ok: bool, start: nat, end: nat)
    requires len <= buf.Length
    modifies buf
    ensures ok <==> CutBuffer(old(buf[..]), len, maxlen, left, right).Some?
    ensures ok ==> start <= end <= buf.Length
    ensures ok ==> buf[start..end] == CutBuffer(old(buf[..]), len, maxlen, left, right).value
  {
    var head, n, from;
    ghost var was := buf[..];
    ok, start, head, n, from := PlanCut(buf[..], len, maxlen, left, right);
    end := Carry(buf, ok, start, head, n, from, was, CutBuffer(was, len, maxlen, left, right));
  }

  method Carry(buf: array<char>, ok: bool, start: nat, head: nat, n: nat, from: nat,
               ghost was: string, ghost result: Option<string>) returns (end: nat)
    requires start + head <= from && from + n <= buf.Length && was == buf[..]
    requires result == if ok then Some(was[start..start + head] + was[from..from + n]) else None
    modifies buf
    ensures ok ==> start <= end <= buf.Length && Some(buf[start..end]) == result
  {
    end := start + head + n;
    if ok { Refill(buf, start, start + head, from, n, was); }
  }

  method Refill(buf: array<char>, start: nat, end: nat, from: nat, n: nat, ghost was: string)
    requires start <= end <= from && from + n <= buf.Length && was == buf[..]
    modifies buf
    ensures buf[start..end + n] == was[start..end] + was[from..from + n]
  {
    MoveDown(buf, end, from, n);
    SliceGlue(buf[..], was, start, end, from, n);
    assert buf[start..end + n] == buf[..][start..end + n];
  }

  /** Where the head is, and which characters of the buffer refill it. */
  method PlanCut(was: string, len: nat, maxlen: nat, left: set<char>, right: set<char>)
    returns (ok: bool, start: nat, head: nat, n: nat, from: nat)
    requires len <= |was|
    ensures start + head <= from && from + n <= |was|
    ensures CutBuffer(was, len, maxlen, left, right) ==
            if ok then Some(was[start..start + head] + was[from..from + n]) else None
  {
    var mapped := was[..len];
    var trim := TrimLeft(mapped, left);
    var size := Min(|trim|, maxlen);
    start := SkipForward(mapped, 0, left);
    var headPart, tailPart := TrimRight(trim[..size], right), TrimLeft(trim[size..], right);
    head, from := |headPart|, len - |tailPart|;
    n := if head == size || |tailPart| == 0 then 0 else size - head;
    PartsAreSlices(mapped, maxlen, left, right, headPart, tailPart, start, size);
    ghost var result := RefilledIn(headPart, tailPart, was[len..], size);
    CutBufferIs(was, len, maxlen, left, right, headPart, tailPart, size, result);
    RefilledSlices(was, len, headPart, tailPart, start, size, result);
    ok := from + n <= |was|;
    if !ok { n := 0; }
  }

  lemma {:induction false} PartsAreSlices(
    mapped: string, maxlen: nat, left: set<char>, right: set<char>, head: string, tail: string, start: nat, size: nat)
    requires start == SkipForward(mapped, 0, left) && size == Min(|TrimLeft(mapped, left)|, maxlen)
    requires head == TrimRight(TrimLeft(mapped, left)[..size], right)
    requires tail == TrimLeft(TrimLeft(mapped, left)[size..], right)
    ensures |head| <= size && start + size + |tail| <= |mapped|
    ensures head == mapped[start..start + |head|] && tail == mapped[|mapped| - |tail|..]
  {
    assert TrimLeft(mapped, left) == mapped[start..];
    HeadIsSlice(mapped, start, size, right);
    TailIsSlice(mapped, start, size, right);
  }

  lemma CutBufferIs(
    was: string, len: nat, maxlen: nat, left: set<char>, right: set<char>, head: string, tail: string, size: nat,
    result: Option<string>)
    requires len <= |was| && size == Min(|TrimLeft(was[..len], left)|, maxlen) && |head| <= size
    requires head == TrimRight(TrimLeft(was[..len], left)[..size], right)
    requires tail == TrimLeft(TrimLeft(was[..len], left)[size..], right)
    requires result == RefilledIn(head, tail, was[len..], size)
    ensures CutBuffer(was, len, maxlen, left, right) == result
  {
  }

  lemma {:induction false} RefilledSlices(
    was: string, len: nat, head: string, tail: string, start: nat, size: nat, result: Option<string>)
    requires len <= |was| && |head| <= size && start + size + |tail| <= len
    requires head == was[..len][start..start + |head|] && tail == was[..len][len - |tail|..]
    requires result == RefilledIn(head, tail, was[len..], size)
    ensures var from, n := len - |tail|, if |head| == size || |tail| == 0 then 0 else size - |head|;
            result ==
            if from + n <= |was| then Some(was[start..start + |head|] + was[from..from + n]) else None
  {
    var from, n := len - |tail|, if |head| == size || |tail| == 0 then 0 else size - |head|;
    assert head == was[start..start + |head|];
    assert tail + was[len..] == was[from..];
    if from + n <= |was| {
      assert was[from..][..n] == was[from..from + n];
      assert head + "" == head;
    }
  }

  lemma HeadIsSlice(mapped: string, start: nat, size: nat, right: set<char>)
    requires start + size <= |mapped|
    ensures var head := TrimRight(mapped[start..][..size], right);
            |head| <= size && head == mapped[start..start + |head|]
  {
  }

  lemma SliceGlue(b: string, w: string, start: nat, end: nat, from: nat, n: nat)
    requires start <= end <= |b| == |w| && end + n <= |b| && from + n <= |w|
    requires b[..end] == w[..end] && b[end..end + n] == w[from..from + n]
    ensures b[start..end + n] == w[start..end] + w[from..from + n]
  {
    assert b[start..end + n] == b[..end][start..] + b[end..end + n];
  }

  /** `append(head, tail[:n]...)` on the shared array: n characters move down. */
  method MoveDown(buf: array<char>, to: nat, from: nat, n: nat)
    requires to <= from && from + n <= buf.Length
    modifies buf
    ensures buf[..][..to] == old(buf[..])[..to]
    ensures buf[..][to..to + n] == old(buf[..])[from..from + n]
  {
    for i := 0 to n
      invariant buf[..to] == old(buf[..to])
      invariant buf[to..to + i] == old(buf[from..from + i])
      invariant buf[from + i..] == old(buf[from + i..])
    {
      assert buf[from + i] == buf[from + i..][0];
      buf[to + i] := buf[from + i];
    }
  }

  // ----- when the slice is in range

  lemma {:induction false} RefillWithinLength(head: string, tail: string, spare: string, size: nat)
    requires |head| <= size
    ensures Refilled(head, tail, size).Some? ==> RefilledIn(head, tail, spare, size) == Refilled(head, tail, size)
    ensures Refilled(head, tail, size) == None && RefilledIn(head, tail, spare, size).Some? ==>
              RefilledIn(head, tail, spare, size) == Some(head + tail + spare[..size - |head| - |tail|])
  {
    if |head| < size && size - |head| <= |tail| {
      assert (tail + spare)[..size - |head|] == tail[..size - |head|];
    } else if |head| < size && size - |head| <= |tail| + |spare| {
      assert (tail + spare)[..size - |head|] == tail + spare[..size - |head| - |tail|];
      assert head + (tail + spare[..size - |head| - |tail|]) == head + tail + spare[..size - |head| - |tail|];
    }
  }

  /** Where the label stays within the bytes of the name, the buffer plays no part. */
  lemma {:induction false} WithinLength(name: string, maxlen: nat, left: set<char>)
    requires LabelOf(name, maxlen, left, DASH).Some?
    ensures LabelIn(name, maxlen, left, DASH) == LabelOf(name, maxlen, left, DASH)
  {
    var trim := TrimLeft(MapName(name), left);
    var size := Min(|trim|, maxlen);
    RefillWithinLength(TrimRight(trim[..size], DASH), TrimLeft(trim[size..], DASH), Spare(name), size);
  }

  /** The cut falls into a run of dashes that is followed by t characters, d of its dashes
      being in front of the cut. */
  ghost predicate Short(name: string, maxlen: nat, left: set<char>, d: nat, t: nat) {
    CutRun(TrimLeft(MapName(name), left), maxlen, d, t) && t < d
  }

  lemma {:induction false} PartsOfRun(trim: string, maxlen: nat, d: nat, t: nat)
    requires CutRun(trim, maxlen, d, t)
    ensures TrimRight(trim[..maxlen], DASH) == trim[..maxlen - d]
    ensures TrimLeft(trim[maxlen..], DASH) == trim[|trim| - t..]
  {
    CutRunUnique(trim, maxlen, d, t);
    TailIsSlice(trim, 0, maxlen, DASH);
    assert trim[0..] == trim;
  }

  lemma {:induction false} RefilledPast(head: string, tail: string, n: nat, size: nat)
    requires |head| <= size && tail != "" && |tail| < size - |head|
    ensures Refilled(head, tail, size) == None
    ensures RefilledIn(head, tail, Nuls(n), size) ==
            if size - |head| <= |tail| + n then Some(head + tail + Nuls(size - |head| - |tail|)) else None
  {
    RefillWithinLength(head, tail, Nuls(n), size);
    if size - |head| <= |tail| + n {
      assert Nuls(n)[..size - |head| - |tail|] == Nuls(size - |head| - |tail|);
    }
  }

  lemma {:induction false} PastCut(mapped: string, n: nat, maxlen: nat, left: set<char>, d: nat, t: nat)
    requires CutRun(TrimLeft(mapped, left), maxlen, d, t) && t < d
    ensures TrimCutOf(mapped, maxlen, left, DASH) == None
    ensures var trim := TrimLeft(mapped, left);
            TrimCutIn(mapped, Nuls(n), maxlen, left, DASH) ==
            if d <= t + n then Some(trim[..maxlen - d] + trim[|trim| - t..] + Nuls(d - t)) else None
  {
    var trim := TrimLeft(mapped, left);
    var head, tail := TrimRight(trim[..maxlen], DASH), TrimLeft(trim[maxlen..], DASH);
    PartsOfRun(trim, maxlen, d, t);
    RefilledPast(head, tail, n, maxlen);
    CutAtLimit(mapped, Nuls(n), maxlen, left);
  }

  lemma CutAtLimit(mapped: string, spare: string, maxlen: nat, left: set<char>)
    requires maxlen < |TrimLeft(mapped, left)|
    ensures var trim := TrimLeft(mapped, left);
            var head, tail := TrimRight(trim[..maxlen], DASH), TrimLeft(trim[maxlen..], DASH);
            && TrimCutOf(mapped, maxlen, left, DASH) == Refilled(head, tail, maxlen)
            && TrimCutIn(mapped, spare, maxlen, left, DASH) == RefilledIn(head, tail, spare, maxlen)
  {
  }

  /** A label that would reach past the bytes of the name: out of range, or filled up with
      the zero bytes behind them. */
  lemma {:induction false} PastLength(name: string, maxlen: nat, left: set<char>, d: nat, t: nat)
    requires Short(name, maxlen, left, d, t)
    ensures LabelOf(name, maxlen, left, DASH) == None
    ensures var trim := TrimLeft(MapName(name), left);
            LabelIn(name, maxlen, left, DASH) ==
            if d <= t + |Spare(name)| then Some(trim[..maxlen - d] + trim[|trim| - t..] + Nuls(d - t)) else None
  {
    PastCut(MapName(name), ByteLength(name) - |MapName(name)|, maxlen, left, d, t);
  }

  lemma {:induction false} ShortExactlyWhen(name: string, maxlen: nat, left: set<char>)
    ensures LabelOf(name, maxlen, left, DASH) == None <==> exists d: nat, t: nat :: Short(name, maxlen, left, d, t)
  {
    LabelDefinedExactlyWhen(name, maxlen, left);
    if CutRunTooLong(TrimLeft(MapName(name), left), maxlen) {
      var d: nat, t: nat :| CutRun(TrimLeft(MapName(name), left), maxlen, d, t) && t < d;
      assert Short(name, maxlen, left, d, t);
    }
  }

  /** The label function panics exactly when the cut falls into a run of dashes with more of
      them in front of the cut than characters behind the run and spare bytes together. */
  lemma {:induction false} PanicsExactlyWhen(name: string, maxlen: nat, left: set<char>)
    ensures LabelIn(name, maxlen, left, DASH) == None <==>
            exists d: nat, t: nat :: Short(name, maxlen, left, d, t) && t + |Spare(name)| < d
  {
    ShortExactlyWhen(name, maxlen, left);
    if LabelOf(name, maxlen, left, DASH).Some? {
      WithinLength(name, maxlen, left);
    }
    forall d: nat, t: nat | Short(name, maxlen, left, d, t)
      ensures LabelIn(name, maxlen, left, DASH) == None <==> t + |Spare(name)| < d
    {
      PastLength(name, maxlen, left, d, t);
    }
  }

  /** A label contains zero bytes exactly when it is short of characters and the spare bytes
      make up for it; it then ends in one. */
  lemma {:induction false} NulExactlyWhen(name: string, maxlen: nat, left: set<char>)
    requires '-' in left && LabelIn(name, maxlen, left, DASH).Some?
    ensures var r := LabelIn(name, maxlen, left, DASH).value;
            && (NUL in r <==> exists d: nat, t: nat :: Short(name, maxlen, left, d, t))
            && (NUL in r ==> |r| == maxlen && r[maxlen - 1] == NUL)
  {
    ShortExactlyWhen(name, maxlen, left);
    if LabelOf(name, maxlen, left, DASH).Some? {
      WithinLength(name, maxlen, left);
      LabelShape(name, maxlen, left);
      NoNul(LabelOf(name, maxlen, left, DASH).value);
    } else {
      var d: nat, t: nat :| Short(name, maxlen, left, d, t);
      PastLength(name, maxlen, left, d, t);
      var trim := TrimLeft(MapName(name), left);
      EndsInNul(trim[..maxlen - d] + trim[|trim| - t..], d - t);
    }
  }

  lemma NoNul(s: string)
    requires AllLabelChars(s)
    ensures NUL !in s
  {
    assert forall i :: 0 <= i < |s| ==> LabelChar(s[i]);
  }

  lemma EndsInNul(s: string, n: nat)
    requires n > 0
    ensures var r := s + Nuls(n); |r| == |s| + n && r[|r| - 1] == NUL && NUL in r
  {
  }

  // ----- applying the label function again

  lemma {:induction false} MapDropsNuls(s: string, n: nat)
    requires AllLabelChars(s)
    ensures MapName(s + Nuls(n)) == s
  {
    if n == 0 {
      assert s + Nuls(n) == s;
    } else {
      MapDropsNuls(s, n - 1);
      assert (s + Nuls(n))[..|s| + n - 1] == s + Nuls(n - 1);
    }
  }

  /** With the buffer too, a second application only drops zero bytes and trims dashes on the
      right, and a third changes nothing. */
  lemma {:induction false} StabilisesInBuffer(name: string, maxlen: nat, left: set<char>)
    requires '-' in left && LabelIn(name, maxlen, left, DASH).Some?
    ensures var r := LabelIn(name, maxlen, left, DASH).value;
            var r2 := TrimRight(MapName(r), DASH);
            && LabelIn(r, maxlen, left, DASH) == Some(r2) && LabelIn(r2, maxlen, left, DASH) == Some(r2)
            && (NUL !in r ==> MapName(r) == r)
  {
    var r := LabelIn(name, maxlen, left, DASH).value;
    var k := MappedLabel(name, maxlen, left);
    RelabelTrims(MapName(r), maxlen, left);
    assert LabelOf(r, maxlen, left, DASH) == LabelOf(MapName(r), maxlen, left, DASH);
    WithinLength(r, maxlen, left);
    WithinLength(TrimRight(MapName(r), DASH), maxlen, left);
  }

  /** A label is what mapping leaves of it, followed by k zero bytes. */
  lemma {:induction false} MappedLabel(name: string, maxlen: nat, left: set<char>) returns (k: nat)
    requires '-' in left && LabelIn(name, maxlen, left, DASH).Some?
    ensures var r := LabelIn(name, maxlen, left, DASH).value;
            var m := MapName(r);
            && |m| <= maxlen && AllLabelChars(m) && (m != "" ==> m[0] !in left)
            && r == m + Nuls(k) && (k > 0 ==> m != "" && NUL in r)
  {
    ShortExactlyWhen(name, maxlen, left);
    if LabelOf(name, maxlen, left, DASH).Some? {
      WithinLength(name, maxlen, left);
      LabelShape(name, maxlen, left);
      k := 0;
    } else {
      var d: nat, t: nat :| Short(name, maxlen, left, d, t);
      PastLength(name, maxlen, left, d, t);
      FilledLabel(name, maxlen, left, d, t);
      k := d - t;
    }
  }

  lemma {:induction false} FilledLabel(name: string, maxlen: nat, left: set<char>, d: nat, t: nat)
    requires '-' in left && Short(name, maxlen, left, d, t)
    ensures var trim := TrimLeft(MapName(name), left);
            var m := trim[..maxlen - d] + trim[|trim| - t..];
            && m != "" && |m| <= maxlen && AllLabelChars(m) && m[0] !in left && MapName(m + Nuls(d - t)) == m
            && NUL in m + Nuls(d - t)
  {
    var trim := TrimLeft(MapName(name), left);
    var m := trim[..maxlen - d] + trim[|trim| - t..];
    assert AllLabelChars(trim);
    HeadNonempty(trim, maxlen, left);
    CutRunUnique(trim, maxlen, d, t);
    MapDropsNuls(m, d - t);
    EndsInNul(m, d - t);
  }

  /** The label function of a given length and left cutset. */
  function Func(maxlen: nat, left: set<char>): string -> Option<string> {
    s => LabelIn(s, maxlen, left, DASH)
  }

  /** The label functions are what splitting and stabilising of fragments ask for. */
  lemma {:induction false} LabelFuncStabilises(maxlen: nat, left: set<char>)
    requires '-' in left
    ensures Stabilises(Func(maxlen, left))
  {
    var f := Func(maxlen, left);
    CleanLabelFixed("", maxlen, left);
    WithinLength("", maxlen, left);
    forall p | f(p).Some? ensures StableAt(f, f(p).value) {
      var r := f(p).value;
      StabilisesInBuffer(p, maxlen, left);
      LabelHasText(p, maxlen, left);
    }
  }

  /** No label holds a dot, and none turns empty when it is mapped and trimmed. */
  lemma {:induction false} LabelHasText(name: string, maxlen: nat, left: set<char>)
    requires '-' in left && LabelIn(name, maxlen, left, DASH).Some?
    ensures var r := LabelIn(name, maxlen, left, DASH).value;
            '.' !in r && (TrimRight(MapName(r), DASH) == "" <==> r == "")
  {
    var r := LabelIn(name, maxlen, left, DASH).value;
    var k := MappedLabel(name, maxlen, left);
    RelabelTrims(MapName(r), maxlen, left);
    NoDot(MapName(r), k);
  }

  lemma NoDot(m: string, k: nat)
    requires AllLabelChars(m)
    ensures '.' !in m + Nuls(k)
  {
    var r := m + Nuls(k);
    forall i | 0 <= i < |r| ensures r[i] != '.' {
      if i < |m| { assert LabelChar(m[i]); }
    }
  }

  // ----- the two label functions

  function Rfc952(name: string): Option<string> { LabelIn(name, 24, RFC952_LEFT, DASH) }

  function Rfc1123(name: string): Option<string> { LabelIn(name, 63, DASH, DASH) }

  /** At most maxlen characters, none of the left cutset in front, all of them label
      characters but for zero bytes at the end. */
  lemma {:induction false} ShapeInBuffer(name: string, maxlen: nat, left: set<char>) returns (k: nat)
    requires '-' in left && LabelIn(name, maxlen, left, DASH).Some?
    ensures var r := LabelIn(name, maxlen, left, DASH).value;
            && |r| <= maxlen && (r != "" ==> r[0] !in left) && k <= |r| && (k > 0 ==> NUL in r)
            && (forall i :: 0 <= i < |r| - k ==> LabelChar(r[i])) && (forall i :: |r| - k <= i < |r| ==> r[i] == NUL)
  {
    var r := LabelIn(name, maxlen, left, DASH).value;
    k := MappedLabel(name, maxlen, left);
    var m := MapName(r);
    assert forall i :: 0 <= i < |m| ==> r[i] == m[i] && LabelChar(m[i]);
  }

  /** RFC 952: at most 24 letters, digits and dashes, a letter first. */
  lemma {:induction false} Rfc952Shape(name: string)
    requires Rfc952(name).Some? && NUL !in Rfc952(name).value
    ensures var r := Rfc952(name).value; |r| <= 24 && AllLabelChars(r) && (r != "" ==> 'a' <= r[0] <= 'z')
  {
    var k := ShapeInBuffer(name, 24, RFC952_LEFT);
    var r := Rfc952(name).value;
    DigitsAreCut(r);
  }

  lemma DigitsAreCut(r: string)
    requires AllLabelChars(r) && (r != "" ==> r[0] !in RFC952_LEFT)
    ensures r != "" ==> 'a' <= r[0] <= 'z'
  {
    assert forall c: char :: '0' <= c <= '9' ==> c in RFC952_LEFT;
  }

  /** RFC 1123: at most 63 letters, digits and dashes, a letter or digit first. */
  lemma {:induction false} Rfc1123Shape(name: string)
    requires Rfc1123(name).Some? && NUL !in Rfc1123(name).value
    ensures var r := Rfc1123(name).value;
            |r| <= 63 && AllLabelChars(r) && (r != "" ==> 'a' <= r[0] <= 'z' || '0' <= r[0] <= '9')
  {
    var k := ShapeInBuffer(name, 63, DASH);
    var r := Rfc1123(name).value;
    assert '-' in DASH;
  }

  /** Names that conform already stay what they are, up to the full length. */
  lemma {:induction false} ConformingKept(s: string)
    requires AllLabelChars(s) && (s != "" ==> s[|s| - 1] != '-')
    ensures |s| <= 24 && (s != "" ==> 'a' <= s[0] <= 'z') ==> Rfc952(s) == Some(s)
    ensures |s| <= 63 && (s != "" ==> s[0] != '-') ==> Rfc1123(s) == Some(s)
  {
    if |s| <= 24 && (s != "" ==> 'a' <= s[0] <= 'z') {
      CleanLabelFixed(s, 24, RFC952_LEFT);
      WithinLength(s, 24, RFC952_LEFT);
    }
    if |s| <= 63 && (s != "" ==> s[0] != '-') {
      CleanLabelFixed(s, 63, DASH);
      WithinLength(s, 63, DASH);
    }
  }

  /** Names on which this happens: for any word that leaves room for two more characters,
      "--b" behind it makes the function panic, and "--b!" gives a label that ends in a zero
      byte. */
  lemma {:induction false} NulNames(word: string, maxlen: nat, left: set<char>)
    requires word != "" && AllLabelChars(word) && word[0] !in left && word[|word| - 1] != '-' && |word| + 2 == maxlen
    ensures LabelIn(word + "--b", maxlen, left, DASH) == None
    ensures LabelIn(word + "--b!", maxlen, left, DASH) == Some(word + "b" + [NUL])
  {
    MappedNames(word);
    ShortCut(word, 0, maxlen, left);
    ShortCut(word, 1, maxlen, left);
  }

  lemma {:induction false} MappedNames(word: string)
    requires AllLabelChars(word)
    ensures MapName(word + "--b") == MapName(word + "--b!") == word + "--b"
    ensures Spare(word + "--b") == Nuls(0) && Spare(word + "--b!") == Nuls(1)
  {
    var short, long := word + "--b", word + "--b!";
    assert AllLabelChars(short);
    assert long[..|long| - 1] == short && long[|long| - 1] == '!';
    AsciiLength(short);
  }

  lemma NothingToTrim(s: string, left: set<char>)
    requires s != "" && s[0] !in left
    ensures TrimLeft(s, left) == s
  {
  }

  lemma {:induction false} ShortCut(word: string, n: nat, maxlen: nat, left: set<char>)
    requires word != "" && word[0] !in left && word[|word| - 1] != '-' && |word| + 2 == maxlen
    ensures TrimCutIn(word + "--b", Nuls(n), maxlen, left, DASH) == if n == 0 then None else Some(word + "b" + [NUL])
  {
    var short := word + "--b";
    NothingToTrim(short, left);
    assert CutRun(short, maxlen, 2, 1);
    PastCut(short, n, maxlen, left, 2, 1);
    assert short[..maxlen - 2] == word && short[|short| - 1..] == "b" && Nuls(1) == [NUL];
  }

  lemma {:induction false} AsciiLength(s: string)
    requires AllLabelChars(s)
    ensures ByteLength(s) == |s|
  {
    if s == "" {
    } else {
      AsciiLength(s[..|s| - 1]);
      assert LabelChar(s[|s| - 1]);
    }
  }
}
