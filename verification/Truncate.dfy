/** Cutting a reply down to the size its transport permits
    (resolvers/builtin/resolver.go, sections 4.2.1 of RFC 1035 and 6.2.3 of RFC 6891). */
module Truncate {
  import opened Text

  const MIN_MSG_SIZE: nat := 512
  const MAX_MSG_SIZE: nat := 65535

  datatype Msg<T> = Msg(answer: seq<T>, extra: seq<T>, truncated: bool)

  /** The wire length of a message, as a function of its answers and extra records.
      Its only property used here is that more records never make it shorter. */
  type Length<!T> = (seq<T>, seq<T>) -> nat

  ghost predicate Monotone<T(!new)>(len: Length<T>) {
    && (forall a, b, e :: a <= b ==> len(a, e) <= len(b, e))
    && (forall a, e :: len(a, []) <= len(a, e))
  }

  function Limit(udp: bool, ednsSize: Option<nat>): nat {
    if !udp then MAX_MSG_SIZE else if ednsSize.Some? then ednsSize.value else MIN_MSG_SIZE
  }

  /** Whether the first k answers, without extra records, are strictly below the limit. */
  predicate Fits<T>(len: Length<T>, answers: seq<T>, k: nat, max: nat)
    requires k <= |answers|
  {
    len(answers[..k], []) < max
  }

  /** k is the least number of answers that is not strictly below the limit. */
  ghost predicate LeastUnfit<T>(len: Length<T>, answers: seq<T>, k: nat, max: nat) {
    && k <= |answers| && !Fits(len, answers, k, max)
    && forall j :: 0 <= j < k ==> Fits(len, answers, j, max)
  }

  /** How many probes the bisection of [left, right) makes up to and including p. */
  function ProbeDepth(left: nat, right: nat, p: nat): (d: nat)
    requires left <= p < right
    decreases right - left
  {
    var mid := (left + right) / 2;
    if p == mid then 1
    else if p < mid then 1 + ProbeDepth(left, mid, p)
    else 1 + ProbeDepth(mid + 1, right, p)
  }

  /** The last probe of a bisection of [left, right) that ends at k: of the positions
      next to k, the one that is probed later. */
  function LastProbe(left: nat, right: nat, k: nat): (p: nat)
    requires left <= k <= right && left < right
    ensures left <= p < right && (p == k || p + 1 == k)
  {
    if k == right then k - 1
    else if k == left then k
    else if ProbeDepth(left, right, k - 1) > ProbeDepth(left, right, k) then k - 1
    else k
  }

  lemma {:induction false} LastProbeNarrows(left: nat, right: nat, k: nat)
    requires left <= k <= right && left < right
    ensures var mid := (left + right) / 2;
            && (k <= mid && left < mid ==> LastProbe(left, right, k) == LastProbe(left, mid, k))
            && (k <= mid && left == mid ==> LastProbe(left, right, k) == mid)
            && (mid < k && mid + 1 < right ==> LastProbe(left, right, k) == LastProbe(mid + 1, right, k))
            && (mid < k && mid + 1 == right ==> LastProbe(left, right, k) == mid)
  {
    if k < right { DepthStep(left, right, k); }
    if left < k { DepthStep(left, right, k - 1); }
  }

  lemma DepthStep(left: nat, right: nat, p: nat)
    requires left <= p < right
    ensures var mid := (left + right) / 2;
            && (p < mid ==> ProbeDepth(left, right, p) == 1 + ProbeDepth(left, mid, p) >= 2)
            && (p == mid ==> ProbeDepth(left, right, p) == 1)
            && (mid < p ==> ProbeDepth(left, right, p) == 1 + ProbeDepth(mid + 1, right, p) >= 2)
  {
    var mid := (left + right) / 2;
    if p < mid {
      DepthPositive(left, mid, p);
    } else if mid < p {
      DepthPositive(mid + 1, right, p);
    }
  }

  /** truncate. The answers kept are those of the last probe, which is not always the
      largest prefix that fits. */
  method TruncateMsg<T(!new)>(m: Msg<T>, len: Length<T>, udp: bool, ednsSize: Option<nat>) returns (r: Msg<T>)
    requires Monotone(len)
    ensures !udp ==> (r.truncated <==> len(m.answer, m.extra) > 65535)
    ensures udp && ednsSize.Some? ==> (r.truncated <==> len(m.answer, m.extra) > ednsSize.value)
    ensures udp && ednsSize == None ==> (r.truncated <==> len(m.answer, m.extra) > 512)
    ensures var max := Limit(udp, ednsSize);
            && (r.truncated <==> len(m.answer, m.extra) > max)
            && (!r.truncated ==> r.answer == m.answer && r.extra == m.extra)
            && (r.truncated ==> r.extra == [] && r.answer <= m.answer)
            && (r.truncated && len(m.answer, []) < max ==> r.answer == m.answer)
            && (r.truncated && len(m.answer, []) >= max ==>
                  exists k :: LeastUnfit(len, m.answer, k, max) &&
                              |r.answer| == (if m.answer == [] then 0 else LastProbe(0, |m.answer|, k)) &&
                              (len(r.answer, []) < max <==> m.answer != [] && LastProbeFits(|m.answer|, k)))
  {
    var max := Limit(udp, ednsSize);
    if len(m.answer, m.extra) <= max {
      return m.(truncated := false);
    }
    r := m.(truncated := true, extra := []);
    if len(m.answer, []) < max { return r; }
    var answers := m.answer;
    assert answers[..|answers|] == answers;
    ghost var k := FindLeastUnfit(len, answers, max);
    var left, right := 0, |answers|;
    while left != right
      invariant 0 <= left <= k <= right <= |answers|
      invariant r.truncated && r.extra == [] && r.answer <= answers
      invariant left == right && answers != [] ==> |r.answer| == LastProbe(0, |answers|, k)
      invariant left < right ==> LastProbe(left, right, k) == LastProbe(0, |answers|, k)
      decreases right - left
    {
      var mid := (left + right) / 2;
      LastProbeNarrows(left, right, k);
      FitsExactlyBelow(len, answers, k, max, mid);
      r := r.(answer := answers[..mid]);
      if len(r.answer, []) < max {
        left := mid + 1;
        continue;
      }
      right := mid;
    }
    assert r.answer == answers[..|r.answer|];
    if answers != [] { KeptFitsExactlyWhen(len, answers, k, max); }
  }

  lemma {:induction false} FindLeastUnfit<T>(len: Length<T>, answers: seq<T>, max: nat) returns (k: nat)
    requires len(answers, []) >= max
    ensures LeastUnfit(len, answers, k, max)
  {
    k := 0;
    assert answers[..|answers|] == answers;
    while Fits(len, answers, k, max)
      invariant k <= |answers|
      invariant forall j :: 0 <= j < k ==> Fits(len, answers, j, max)
      decreases |answers| - k
    {
      k := k + 1;
    }
  }

  /** For a monotone length the prefixes that fit are exactly those shorter than k. */
  lemma FitsExactlyBelow<T(!new)>(len: Length<T>, answers: seq<T>, k: nat, max: nat, j: nat)
    requires Monotone(len) && LeastUnfit(len, answers, k, max) && j <= |answers|
    ensures Fits(len, answers, j, max) <==> j < k
  {
    if j >= k {
      assert answers[..k] <= answers[..j];
    }
  }

  /** Exactly when the kept prefix is below the limit: the limit is reached only past the
      last answer, or answer k - 1 is probed after answer k. */
  predicate LastProbeFits(n: nat, k: nat)
    requires k <= n
  {
    k == n || (0 < k && ProbeDepth(0, n, k - 1) > ProbeDepth(0, n, k))
  }

  lemma {:induction false} KeptFitsExactlyWhen<T(!new)>(len: Length<T>, answers: seq<T>, k: nat, max: nat)
    requires Monotone(len) && LeastUnfit(len, answers, k, max) && answers != []
    ensures Fits(len, answers, LastProbe(0, |answers|, k), max) <==> LastProbeFits(|answers|, k)
  {
    FitsExactlyBelow(len, answers, k, max, LastProbe(0, |answers|, k));
  }

  /** The gap: with n >= 3 answers, when the first n / 2 fit and the first n / 2 + 1 do
      not, n / 2 + 1 are kept. With three answers of which only one fits, two are kept. */
  lemma KeepsOneTooMany(n: nat)
    requires n >= 3
    ensures LastProbe(0, n, n / 2 + 1) == n / 2 + 1
  {
    DepthStep(0, n, n / 2);
    DepthStep(0, n, n / 2 + 1);
  }

  lemma DepthPositive(left: nat, right: nat, p: nat)
    requires left <= p < right
    ensures ProbeDepth(left, right, p) >= 1
  {
  }
}
