/** Mangling names into DNS labels (records/labels/labels.go), after grammar assumption 1
    of RFC 952 and section 2.1 of RFC 1123. */
module Labels {
  import opened Text

  /** mapping; None is the rune -1, which bytes.Map drops. */
  function Mapping(c: char): Option<char> {
    if 'A' <= c <= 'Z' then Some('a' + (c - 'A'))
    else if 'a' <= c <= 'z' || '0' <= c <= '9' then Some(c)
    else if c == '-' || c == '.' || c == '_' then Some('-')
    else None
  }

  predicate LabelChar(c: char) { 'a' <= c <= 'z' || '0' <= c <= '9' || c == '-' }

  predicate AllLabelChars(s: string) { forall i :: 0 <= i < |s| ==> LabelChar(s[i]) }

  function MapName(s: string): (r: string)
    ensures AllLabelChars(r) && |r| <= |s|
    ensures AllLabelChars(s) ==> r == s
  {
    if s == "" then ""
    else
      var rest := MapName(s[..|s| - 1]);
      assert s == s[..|s| - 1] + [s[|s| - 1]];
      match Mapping(s[|s| - 1]) case Some(c) => rest + [c] case None => rest
  }

  function LowerCase(c: char): char { if 'A' <= c <= 'Z' then 'a' + (c - 'A') else c }

  /** No distinction is made between upper and lower case. */
  lemma {:induction false} CaseDoesNotMatter(a: string, b: string, maxlen: nat, left: set<char>, right: set<char>)
    requires |a| == |b| && forall i :: 0 <= i < |a| ==> LowerCase(a[i]) == LowerCase(b[i])
    ensures LabelOf(a, maxlen, left, right) == LabelOf(b, maxlen, left, right)
  {
    CaseMapsAlike(a, b);
  }

  lemma {:induction false} CaseMapsAlike(a: string, b: string)
    requires |a| == |b| && forall i :: 0 <= i < |a| ==> LowerCase(a[i]) == LowerCase(b[i])
    ensures MapName(a) == MapName(b)
  {
    if a == "" {
    } else {
      var n := |a| - 1;
      CaseMapsAlike(a[..n], b[..n]);
      assert Mapping(a[n]) == Mapping(b[n]);
    }
  }

  /** The characters that a label is made from. */
  predicate NameChar(c: char) {
    'a' <= c <= 'z' || 'A' <= c <= 'Z' || '0' <= c <= '9' || c == '-' || c == '.' || c == '_'
  }

  /** One by one: letters in lower case, digits and dashes as they are, dots and underscores
      as dashes, and nothing for the rest. */
  lemma MapOne(c: char)
    ensures MapName([c]) ==
            if 'A' <= c <= 'Z' then ['a' + (c - 'A')]
            else if 'a' <= c <= 'z' || '0' <= c <= '9' || c == '-' then [c]
            else if c == '.' || c == '_' then "-"
            else ""
  {
    assert [c][..0] == "";
    assert MapName("") == "";
  }

  lemma MapLast(s: string, c: char)
    ensures MapName(s + [c]) == MapName(s) + MapName([c])
  {
    assert (s + [c])[..|s|] == s && [c][..0] == "";
  }

  lemma {:induction false} MapAppend(a: string, b: string)
    ensures MapName(a + b) == MapName(a) + MapName(b)
  {
    var f := (s: string) => MapName(s);
    forall s: string, c: char ensures f(s + [c]) == f(s) + f([c]) {
      MapLast(s, c);
    }
    Homomorphism(f, a, b);
  }

  /** A function that takes a text character by character takes it part by part. */
  lemma {:induction false} Homomorphism(f: string -> string, a: string, b: string)
    requires f("") == "" && forall s: string, c: char :: f(s + [c]) == f(s) + f([c])
    ensures f(a + b) == f(a) + f(b)
  {
    if b == "" {
      assert a + b == a;
    } else {
      var init, last := b[..|b| - 1], b[|b| - 1];
      Homomorphism(f, a, init);
      assert b == init + [last] && a + b == (a + init) + [last];
      assert f(b) == f(init) + f([last]) && f((a + init) + [last]) == f(a + init) + f([last]);
    }
  }

  /** On names made from such characters nothing is dropped. */
  lemma {:induction false} MapKeepsLength(s: string)
    requires forall c :: c in s ==> NameChar(c)
    ensures |MapName(s)| == |s|
    ensures forall i :: 0 <= i < |s| ==>
              MapName(s)[i] == if 'A' <= s[i] <= 'Z' then 'a' + (s[i] - 'A')
                               else if s[i] == '.' || s[i] == '_' then '-' else s[i]
  {
    if s == "" {
    } else {
      var n := |s| - 1;
      assert s == s[..n] + [s[n]];
      assert s[n] in s;
      MapKeepsLength(s[..n]);
      MapLast(s[..n], s[n]);
      MapOne(s[n]);
    }
  }

  function Min(a: nat, b: nat): nat { if a < b then a else b }

  /** trimCut as far as it stays within the bytes of the name. None stands for the slice
      `tail[:size-len(head)]` reaching past the bytes of tail, of which LabelBuffer says what
      becomes. */
  function TrimCutOf(mapped: string, maxlen: nat, left: set<char>, right: set<char>): Option<string> {
    var trim := TrimLeft(mapped, left);
    var size := Min(|trim|, maxlen);
    Refilled(TrimRight(trim[..size], right), TrimLeft(trim[size..], right), size)
  }

  /** The head, refilled to the given size from the tail if it was trimmed. */
  function Refilled(head: string, tail: string, size: nat): Option<string>
    requires |head| <= size
  {
    if |head| == size then Some(head)
    else if |tail| == 0 then Some(head)
    else if size - |head| > |tail| then None
    else Some(head + tail[..size - |head|])
  }

  function LabelOf(name: string, maxlen: nat, left: set<char>, right: set<char>): Option<string> {
    TrimCutOf(MapName(name), maxlen, left, right)
  }

  const DASH: set<char> := {'-'}

  const RFC952_LEFT: set<char> := {'-', '0', '1', '2', '3', '4', '5', '6', '7', '8', '9'}

  lemma TailIsSlice(mapped: string, start: nat, size: nat, right: set<char>)
    requires start + size <= |mapped|
    ensures var tail := TrimLeft(mapped[start..][size..], right);
            start + size + |tail| <= |mapped| && tail == mapped[|mapped| - |tail|..]
  {
    assert mapped[start..][size..] == mapped[start + size..];
  }

  // ----- when the slice is in range

  /** The first maxlen characters end in d dashes, the run goes on behind the cut, and t
      characters follow it. */
  ghost predicate CutRun(trim: string, maxlen: nat, d: nat, t: nat) {
    && 0 < t && d <= maxlen < |trim| && maxlen <= |trim| - t
    && (forall i :: maxlen - d <= i < |trim| - t ==> trim[i] == '-')
    && (d < maxlen ==> trim[maxlen - d - 1] != '-')
    && trim[|trim| - t] != '-'
  }

  /** The cut falls into a run of dashes that is followed by fewer characters than there
      are dashes before the cut. */
  ghost predicate CutRunTooLong(trim: string, maxlen: nat) {
    exists d: nat, t: nat :: CutRun(trim, maxlen, d, t) && t < d
  }

  lemma {:induction false} CutRunOf(trim: string, maxlen: nat)
    requires maxlen < |trim| && TrimLeft(trim[maxlen..], DASH) != ""
    ensures CutRun(trim, maxlen, maxlen - |TrimRight(trim[..maxlen], DASH)|, |TrimLeft(trim[maxlen..], DASH)|)
  {
    var head, tail := TrimRight(trim[..maxlen], DASH), TrimLeft(trim[maxlen..], DASH);
    forall i | |head| <= i < |trim| - |tail| ensures trim[i] == '-' {
      if i < maxlen {
        assert trim[..maxlen][i] in DASH;
      } else {
        assert trim[maxlen..][i - maxlen] in DASH;
      }
    }
    if head != "" { assert trim[|head| - 1] == head[|head| - 1]; }
    assert trim[|trim| - |tail|] == tail[0];
  }

  lemma {:induction false} CutRunUnique(trim: string, maxlen: nat, d: nat, t: nat)
    requires CutRun(trim, maxlen, d, t)
    ensures |TrimRight(trim[..maxlen], DASH)| == maxlen - d && |TrimLeft(trim[maxlen..], DASH)| == t
  {
    TrimRightRun(trim[..maxlen], d);
    TrimLeftRun(trim[maxlen..], |trim| - maxlen - t);
  }

  /** The label function stays within the bytes of the name exactly on names without such a
      run. */
  lemma {:induction false} LabelDefinedExactlyWhen(name: string, maxlen: nat, left: set<char>)
    ensures LabelOf(name, maxlen, left, DASH) == None <==> CutRunTooLong(TrimLeft(MapName(name), left), maxlen)
  {
    var trim := TrimLeft(MapName(name), left);
    if LabelOf(name, maxlen, left, DASH) == None {
      CutRunOf(trim, maxlen);
    }
    if CutRunTooLong(trim, maxlen) {
      var d: nat, t: nat :| CutRun(trim, maxlen, d, t) && t < d;
      CutRunUnique(trim, maxlen, d, t);
    }
  }

  lemma {:induction false} TrimRightRun(s: string, d: nat)
    requires d <= |s| && (forall i :: |s| - d <= i < |s| ==> s[i] == '-') && (d < |s| ==> s[|s| - d - 1] != '-')
    ensures |TrimRight(s, DASH)| == |s| - d
  {
    if d == 0 {
    } else {
      TrimRightRun(s[..|s| - 1], d - 1);
    }
  }

  lemma {:induction false} TrimLeftRun(s: string, d: nat)
    requires d <= |s| && (forall i :: 0 <= i < d ==> s[i] == '-') && (d < |s| ==> s[d] != '-')
    ensures |TrimLeft(s, DASH)| == |s| - d
  {
    if d == 0 {
    } else {
      TrimLeftRun(s[1..], d - 1);
    }
  }

  // ----- the shape of a label

  ghost predicate EndsInDash(s: string) { s != "" && s[|s| - 1] == '-' }

  /** At most maxlen characters, all of them label characters, none of the left cutset in
      front; a dash at the end only in a label that was refilled to its full length from
      a longer name. */
  lemma {:induction false} LabelShape(name: string, maxlen: nat, left: set<char>)
    requires '-' in left && LabelOf(name, maxlen, left, DASH).Some?
    ensures var r := LabelOf(name, maxlen, left, DASH).value;
            && |r| <= maxlen && AllLabelChars(r)
            && (r != "" ==> r[0] !in left)
            && (EndsInDash(r) ==> |r| == maxlen < |MapName(name)|)
  {
    TrimCutShape(MapName(name), maxlen, left);
  }

  lemma {:induction false} TrimCutShape(mapped: string, maxlen: nat, left: set<char>)
    requires '-' in left && AllLabelChars(mapped) && TrimCutOf(mapped, maxlen, left, DASH).Some?
    ensures var r := TrimCutOf(mapped, maxlen, left, DASH).value;
            && |r| <= maxlen && AllLabelChars(r)
            && (r != "" ==> r[0] !in left)
            && (EndsInDash(r) ==> |r| == maxlen < |mapped|)
  {
    var trim := TrimLeft(mapped, left);
    assert AllLabelChars(trim);
    var size := Min(|trim|, maxlen);
    var head := TrimRight(trim[..size], DASH);
    assert AllLabelChars(head) by {
      assert forall i :: 0 <= i < |head| ==> head[i] == trim[i];
    }
    HeadNonempty(trim, size, left);
    if |head| < size {
      var tail := TrimLeft(trim[size..], DASH);
      if tail != "" {
        var refill := tail[..size - |head|];
        assert AllLabelChars(refill) by {
          assert trim[size..] == trim[size..|trim|];
          assert forall i :: 0 <= i < |refill| ==> refill[i] == trim[|trim| - |tail| + i];
        }
        assert AllLabelChars(head + refill);
      }
    }
  }

  lemma HeadNonempty(trim: string, size: nat, left: set<char>)
    requires '-' in left && size <= |trim| && (trim != "" ==> trim[0] !in left)
    ensures var head := TrimRight(trim[..size], DASH);
            (size > 0 ==> head != "") && (head != "" ==> head[0] == trim[0])
  {
    if size > 0 { assert trim[..size][0] == trim[0]; }
  }

  /** A label that needs no trimming is left as it is. */
  lemma {:induction false} CleanLabelFixed(r: string, maxlen: nat, left: set<char>)
    requires AllLabelChars(r) && |r| <= maxlen && (r != "" ==> r[0] !in left) && !EndsInDash(r)
    ensures LabelOf(r, maxlen, left, DASH) == Some(r)
  {
    assert r[..|r|] == r;
    assert TrimLeft(r, left) == r;
    assert TrimRight(r, DASH) == r;
  }

  /** A second application can still cut a refilled dash, a third changes nothing. */
  lemma {:induction false} LabelStabilises(name: string, maxlen: nat, left: set<char>)
    requires '-' in left && LabelOf(name, maxlen, left, DASH).Some?
    ensures var r := LabelOf(name, maxlen, left, DASH).value;
            var r2 := TrimRight(r, DASH);
            && LabelOf(r, maxlen, left, DASH) == Some(r2)
            && LabelOf(r2, maxlen, left, DASH) == Some(r2)
            && (r2 == r <==> !EndsInDash(r))
            && (r2 == "" <==> r == "")
  {
    LabelShape(name, maxlen, left);
    RelabelTrims(LabelOf(name, maxlen, left, DASH).value, maxlen, left);
  }

  /** On a label the label function only trims the right end. */
  lemma {:induction false} RelabelTrims(r: string, maxlen: nat, left: set<char>)
    requires '-' in left && AllLabelChars(r) && |r| <= maxlen && (r != "" ==> r[0] !in left)
    ensures var r2 := TrimRight(r, DASH);
            && LabelOf(r, maxlen, left, DASH) == Some(r2)
            && LabelOf(r2, maxlen, left, DASH) == Some(r2)
            && (r2 == r <==> !EndsInDash(r))
            && (r2 == "" <==> r == "")
  {
    var r2 := TrimRight(r, DASH);
    assert r[..|r|] == r && r[|r|..] == "";
    assert TrimLeft(r, left) == r;
    HeadNonempty(r, |r|, left);
    assert !EndsInDash(r2);
    CleanLabelFixed(r2, maxlen, left);
  }

  /** The refill that replaces the d dashes before the cut itself ends in a dash. */
  ghost predicate RefillEndsInDash(trim: string, maxlen: nat) {
    exists d: nat, t: nat :: CutRun(trim, maxlen, d, t) && 0 < d <= t && trim[|trim| - t + d - 1] == '-'
  }

  /** A refilled label ends where its refill ends. */
  lemma {:induction false} RefilledEnd(trim: string, maxlen: nat)
    requires maxlen < |trim|
    ensures var head, tail := TrimRight(trim[..maxlen], DASH), TrimLeft(trim[maxlen..], DASH);
            var d := maxlen - |head|;
            |head| < maxlen && 0 < d <= |tail| ==>
              Refilled(head, tail, maxlen) == Some(head + tail[..d]) &&
              (EndsInDash(head + tail[..d]) <==> trim[|trim| - |tail| + d - 1] == '-')
  {
    var head, tail := TrimRight(trim[..maxlen], DASH), TrimLeft(trim[maxlen..], DASH);
    var d := maxlen - |head|;
    if |head| < maxlen && 0 < d <= |tail| {
      var r := head + tail[..d];
      TailIsSlice(trim, 0, maxlen, DASH);
      assert trim[0..] == trim;
      assert r[|r| - 1] == tail[d - 1] == trim[|trim| - |tail| + d - 1];
    }
  }

  /** Both RFCs forbid a dash at the end. The label breaks the rule exactly when its refill
      does. */
  lemma {:induction false} EndsInDashExactlyWhen(name: string, maxlen: nat, left: set<char>)
    requires '-' in left && LabelOf(name, maxlen, left, DASH).Some?
    ensures EndsInDash(LabelOf(name, maxlen, left, DASH).value) <==>
            RefillEndsInDash(TrimLeft(MapName(name), left), maxlen)
  {
    var trim := TrimLeft(MapName(name), left);
    if |trim| > maxlen {
      RefilledEnd(trim, maxlen);
      RefillDash(trim, maxlen);
      RefilledCases(TrimRight(trim[..maxlen], DASH), TrimLeft(trim[maxlen..], DASH), maxlen);
    } else {
      assert trim[..|trim|] == trim && trim[|trim|..] == "";
      RefilledCases(TrimRight(trim, DASH), "", |trim|);
    }
  }

  /** A label that was not refilled ends in no dash. */
  lemma RefilledCases(head: string, tail: string, size: nat)
    requires |head| <= size && !EndsInDash(head) && Refilled(head, tail, size).Some?
    ensures |head| == size || tail == "" ==> !EndsInDash(Refilled(head, tail, size).value)
    ensures |head| < size && tail != "" ==> size - |head| <= |tail|
  {
  }

  lemma {:induction false} RefillDash(trim: string, maxlen: nat)
    requires maxlen < |trim|
    ensures var head, tail := TrimRight(trim[..maxlen], DASH), TrimLeft(trim[maxlen..], DASH);
            var d := maxlen - |head|;
            RefillEndsInDash(trim, maxlen) <==> 0 < d <= |tail| && trim[|trim| - |tail| + d - 1] == '-'
  {
    var head, tail := TrimRight(trim[..maxlen], DASH), TrimLeft(trim[maxlen..], DASH);
    if tail != "" { CutRunOf(trim, maxlen); }
    if RefillEndsInDash(trim, maxlen) {
      var d: nat, t: nat :| CutRun(trim, maxlen, d, t) && 0 < d <= t && trim[|trim| - t + d - 1] == '-';
      CutRunUnique(trim, maxlen, d, t);
    }
  }

  /** Names on which the code departs from its promise: for any word that leaves room for
      two more characters, "--b" behind it makes the slice reach out of range, and "--b-"
      gives a label that ends in a dash. */
  lemma {:induction false} DashRunNames(word: string, maxlen: nat, left: set<char>)
    requires word != "" && AllLabelChars(word) && word[0] !in left && word[|word| - 1] != '-' && |word| + 2 == maxlen
    ensures LabelOf(word + "--b", maxlen, left, DASH) == None
    ensures LabelOf(word + "--b-", maxlen, left, DASH) == Some(word + "b-")
  {
    var short, long := word + "--b", word + "--b-";
    assert AllLabelChars(short) && TrimLeft(short, left) == short;
    assert CutRun(short, maxlen, 2, 1);
    LabelDefinedExactlyWhen(short, maxlen, left);
    DashRunRefill(word, maxlen, left);
  }

  lemma {:induction false} DashRunRefill(word: string, maxlen: nat, left: set<char>)
    requires word != "" && AllLabelChars(word) && word[0] !in left && word[|word| - 1] != '-' && |word| + 2 == maxlen
    ensures LabelOf(word + "--b-", maxlen, left, DASH) == Some(word + "b-")
  {
    var long := word + "--b-";
    assert AllLabelChars(long) && TrimLeft(long, left) == long;
    assert CutRun(long, maxlen, 2, 2);
    CutRunUnique(long, maxlen, 2, 2);
    assert TrimRight(long[..maxlen], DASH) == word;
    assert TrimLeft(long[maxlen..], DASH) == "b-";
    assert "b-"[..2] == "b-";
  }

  // ----- domain fragments

  /** The nonempty labels of the parts of a name. */
  function Fragments(parts: seq<string>, f: string -> string): (r: seq<string>)
    ensures forall l :: l in r ==> l != ""
  {
    if parts == [] then []
    else
      var lab := f(parts[|parts| - 1]);
      Fragments(parts[..|parts| - 1], f) + if lab == "" then [] else [lab]
  }

  /** One part gives its label if there is one. */
  lemma FragmentsOne(p: string, f: string -> string)
    ensures Fragments([p], f) == if f(p) == "" then [] else [f(p)]
  {
    assert [p][..0] == [];
  }

  /** And so does every part of a list, in order. */
  lemma {:induction false} FragmentsAppend(a: seq<string>, b: seq<string>, f: string -> string)
    ensures Fragments(a + b, f) == Fragments(a, f) + Fragments(b, f)
  {
    if b == [] {
      assert a + b == a;
    } else {
      var n := |b| - 1;
      FragmentsAppend(a, b[..n], f);
      assert (a + b)[..|a + b| - 1] == a + b[..n];
    }
  }

  /** DomainFrag with a total label function. */
  function FragmentOf(name: string, f: string -> string): string {
    Join(Fragments(Split(name, '.'), f), '.')
  }

  function Total(f: string -> Option<string>): string -> string {
    s => if f(s).Some? then f(s).value else ""
  }

  predicate DefinedOn(parts: seq<string>, f: string -> Option<string>) {
    forall p :: p in parts ==> f(p).Some?
  }

  method DomainFrag(name: string, f: string -> Option<string>) returns (r: Option<string>)
    ensures r == if DefinedOn(Split(name, '.'), f) then Some(FragmentOf(name, Total(f))) else None
  {
    var parts := Split(name, '.');
    var labels := [];
    for i := 0 to |parts|
      invariant DefinedOn(parts[..i], f)
      invariant labels == Fragments(parts[..i], Total(f))
    {
      assert parts[..i + 1][..i] == parts[..i];
      assert forall p :: p in parts[..i + 1] <==> p in parts[..i] || p == parts[i];
      match f(parts[i]) {
        case None =>
          assert parts[i] in parts;
          return None;
        case Some(lab) =>
          if lab != "" { labels := labels + [lab]; }
      }
    }
    assert parts[..|parts|] == parts;
    return Some(Join(labels, '.'));
  }

  /** What a label function must do for fragments to split and stabilise: its results hold
      no dot, stay nonempty when it is applied again, and then change no more. */
  ghost predicate Stabilises(f: string -> Option<string>) {
    f("") == Some("") && forall p :: f(p).Some? ==> StableAt(f, f(p).value)
  }

  ghost predicate StableAt(f: string -> Option<string>, l: string) {
    '.' !in l && f(l).Some? && (f(l).value == "" <==> l == "") && f(f(l).value) == f(l)
  }

  ghost predicate IsLabel(l: string, f: string -> Option<string>) { l != "" && exists p :: f(p) == Some(l) }

  lemma {:induction false} FragmentsAre(parts: seq<string>, f: string -> Option<string>)
    requires DefinedOn(parts, f)
    ensures forall l :: l in Fragments(parts, Total(f)) ==> IsLabel(l, f)
  {
    if parts == [] {
    } else {
      var init, last := parts[..|parts| - 1], parts[|parts| - 1];
      assert parts == init + [last];
      FragmentsAre(init, f);
      assert f(last).Some?;
      assert f(last).value != "" ==> IsLabel(f(last).value, f);
    }
  }

  lemma {:induction false} LabelsHoldNoDot(labels: seq<string>, f: string -> Option<string>)
    requires Stabilises(f) && forall l :: l in labels ==> IsLabel(l, f)
    ensures forall l :: l in labels ==> StableAt(f, l)
  {
    forall l | l in labels ensures StableAt(f, l) {
      var p :| f(p) == Some(l);
    }
  }

  /** The result splits back into the nonempty labels it was joined from. */
  lemma {:induction false} FragmentSplits(name: string, f: string -> Option<string>)
    requires Stabilises(f) && DefinedOn(Split(name, '.'), f)
    ensures var labels := Fragments(Split(name, '.'), Total(f));
            Split(FragmentOf(name, Total(f)), '.') == if labels == [] then [""] else labels
  {
    var labels := Fragments(Split(name, '.'), Total(f));
    FragmentsAre(Split(name, '.'), f);
    LabelsHoldNoDot(labels, f);
    if labels != [] { SplitJoin(labels, '.'); }
  }

  function Each(labels: seq<string>, f: string -> string): (r: seq<string>)
    ensures |r| == |labels| && forall i :: 0 <= i < |labels| ==> r[i] == f(labels[i])
  {
    seq(|labels|, i requires 0 <= i < |labels| => f(labels[i]))
  }

  /** A function that keeps each label nonempty keeps their number. */
  lemma {:induction false} FragmentsOfLabels(labels: seq<string>, f: string -> string)
    requires forall l :: l in labels ==> f(l) != ""
    ensures Fragments(labels, f) == Each(labels, f)
  {
    if labels == [] {
    } else {
      var init, last := labels[..|labels| - 1], labels[|labels| - 1];
      FragmentsOfLabels(init, f);
      assert last in labels;
      assert Each(labels, f) == Each(init, f) + [f(last)];
    }
  }

  lemma {:induction false} FragmentOfLabels(labels: seq<string>, f: string -> Option<string>)
    requires Stabilises(f) && labels != [] && forall l :: l in labels ==> IsLabel(l, f)
    ensures Split(Join(labels, '.'), '.') == labels && DefinedOn(labels, f)
    ensures FragmentOf(Join(labels, '.'), Total(f)) == Join(Each(labels, Total(f)), '.')
    ensures forall l :: l in Each(labels, Total(f)) ==> IsLabel(l, f)
  {
    LabelsHoldNoDot(labels, f);
    SplitJoin(labels, '.');
    FragmentsOfLabels(labels, Total(f));
    FragmentsAre(labels, f);
  }

  /** DomainFrag is defined on its own results and stable from the second on. */
  lemma {:induction false} FragmentStabilises(name: string, f: string -> Option<string>)
    requires Stabilises(f) && DefinedOn(Split(name, '.'), f)
    ensures var r1 := FragmentOf(name, Total(f));
            var r2 := FragmentOf(r1, Total(f));
            && DefinedOn(Split(r1, '.'), f) && DefinedOn(Split(r2, '.'), f)
            && FragmentOf(r2, Total(f)) == r2
  {
    var labels := Fragments(Split(name, '.'), Total(f));
    FragmentsAre(Split(name, '.'), f);
    if labels == [] {
      EmptyFragment(f);
    } else {
      FragmentOfLabels(labels, f);
      FragmentOfLabels(Each(labels, Total(f)), f);
      LabelsHoldNoDot(labels, f);
      EachTwice(labels, f);
    }
  }

  lemma {:induction false} EachTwice(labels: seq<string>, f: string -> Option<string>)
    requires forall l :: l in labels ==> StableAt(f, l)
    ensures Each(Each(labels, Total(f)), Total(f)) == Each(labels, Total(f))
  {
    forall i | 0 <= i < |labels| ensures Total(f)(Total(f)(labels[i])) == Total(f)(labels[i]) {
      assert StableAt(f, labels[i]);
    }
  }

  lemma {:induction false} EmptyFragment(f: string -> Option<string>)
    requires f("") == Some("")
    ensures DefinedOn(Split("", '.'), f) && FragmentOf("", Total(f)) == ""
  {
    assert Split("", '.') == [""] && [""][..0] == [];
    assert Fragments([""], Total(f)) == [];
  }
}
