/** Finding a component's own line in the stack of an error it threw, by comparison with a control stack. */
module FrameSearch {
  import opened Wrappers

  const ROOT := "DetermineComponentFrameRoot"

  predicate Contains(s: string, sub: string) { sub <= s || (s != [] && Contains(s[1..], sub)) }

  predicate IsRoot(frame: string) { Contains(frame, ROOT) }

  /** The index of the first root line; the length if there is none. */
  function FirstRoot(lines: seq<string>): (n: nat)
    ensures n <= |lines| && (n < |lines| ==> IsRoot(lines[n])) && forall k :: 0 <= k < n ==> !IsRoot(lines[k])
  {
    if lines == [] || IsRoot(lines[0]) then 0
    else
      var n := FirstRoot(lines[1..]);
      assert forall k :: 0 < k < 1 + n ==> lines[k] == lines[1..][k - 1];
      1 + n
  }

  /** The last index up to `c` of a line equal to `line`; -1 if there is none. */
  function LastEqual(lines: seq<string>, frame: string, c: int): (r: int)
    requires -1 <= c < |lines|
    ensures -1 <= r <= c && (r >= 0 ==> lines[r] == frame) && forall k :: r < k <= c ==> lines[k] != frame
    decreases c + 1
  {
    if c < 0 || lines[c] == frame then c else LastEqual(lines, frame, c - 1)
  }

  /** Where the two cursors start: at the first root lines, or else at the sample's last line and the last
      control line equal to it. */
  function Cursors(sample: seq<string>, control: seq<string>): (r: (int, int))
    requires sample != [] && control != []
    ensures 0 <= r.0 < |sample| && -1 <= r.1 < |control|
  {
    var s, c := FirstRoot(sample), FirstRoot(control);
    if s < |sample| && c < |control| then (s, c)
    else if |sample| == 1 then (0, |control| - 1)
    else (|sample| - 1, LastEqual(control, sample[|sample| - 1], |control| - 1))
  }

  /** k lines above both cursors the stacks are the same; both indices are in bounds. */
  predicate SameAt(sample: seq<string>, control: seq<string>, s: int, c: int, k: int) {
    0 <= s - k < |sample| && 0 <= c - k < |control| && sample[s - k] == control[c - k]
  }

  /** The frame is k2 lines above the start: k1 lines above it is the first mismatch, which is not in both
      second lines, and k2 is the next place where the control is exhausted or differs again. */
  ghost predicate IsFrame(sample: seq<string>, control: seq<string>, s: int, c: int, k1: int, k2: int)
    requires 0 <= s < |sample| && -1 <= c < |control|
  {
    && 0 <= k1 < k2 <= s && k1 <= c
    && (forall k {:trigger SameAt(sample, control, s, c, k)} :: 0 <= k < k1 ==> SameAt(sample, control, s, c, k))
    && !SameAt(sample, control, s, c, k1) && !(s - k1 == 1 && c - k1 == 1)
    && (forall k {:trigger SameAt(sample, control, s, c, k)} :: k1 < k < k2 ==> SameAt(sample, control, s, c, k))
    && !SameAt(sample, control, s, c, k2)
  }

  lemma FrameIsUnique(sample: seq<string>, control: seq<string>, s: int, c: int, k1: int, k2: int, j1: int, j2: int)
    requires 0 <= s < |sample| && -1 <= c < |control|
    requires IsFrame(sample, control, s, c, k1, k2) && IsFrame(sample, control, s, c, j1, j2)
    ensures k1 == j1 && k2 == j2
  {
    assert k1 < j1 ==> SameAt(sample, control, s, c, k1);
    assert j1 < k1 ==> SameAt(sample, control, s, c, j1);
    assert k1 == j1 && k2 < j2 ==> SameAt(sample, control, s, c, k2);
    assert k1 == j1 && j2 < k2 ==> SameAt(sample, control, s, c, j2);
  }

  predicate OccursAt(s: string, sub: string, i: int) { 0 <= i <= |s| - |sub| && s[i..i + |sub|] == sub }

  lemma {:induction false} ContainsExactly(s: string, sub: string)
    ensures Contains(s, sub) <==> exists i :: OccursAt(s, sub, i)
  {
    if sub <= s {
      assert OccursAt(s, sub, 0);
    } else if s != [] {
      ContainsExactly(s[1..], sub);
      if i :| OccursAt(s, sub, i) {
        assert i > 0;
        OneFurther(s, sub, i - 1);
      }
      if i :| OccursAt(s[1..], sub, i) { OneFurther(s, sub, i); }
    }
  }

  lemma OneFurther(s: string, sub: string, i: nat)
    requires s != ""
    ensures OccursAt(s, sub, i + 1) <==> OccursAt(s[1..], sub, i)
  {
    if i + 1 + |sub| <= |s| { assert s[1..][i..i + |sub|] == s[i + 1..i + 1 + |sub|]; }
  }

  ghost predicate NamesRoot(frame: string) { Contains(frame, "DetermineComponentFrameRoot") }

  ghost predicate FirstNaming(lines: seq<string>, n: int) {
    0 <= n < |lines| && NamesRoot(lines[n]) && forall k :: 0 <= k < n ==> !NamesRoot(lines[k])
  }

  /** Both first lines that name the root function; or, where one stack has none, the sample's last line and the last
      line of the control equal to it, if there is one. A sample of one line is not looked for. */
  ghost predicate Starts(sample: seq<string>, control: seq<string>, s: int, c: int)
    requires sample != []
  {
    if exists k, j :: 0 <= k < |sample| && NamesRoot(sample[k]) && 0 <= j < |control| && NamesRoot(control[j]) then
      FirstNaming(sample, s) && FirstNaming(control, c)
    else
      && s == |sample| - 1 && -1 <= c < |control|
      && if s == 0 then c == |control| - 1
         else (c >= 0 ==> control[c] == sample[s]) && forall k :: c < k < |control| ==> control[k] != sample[s]
  }

  lemma CursorsStart(sample: seq<string>, control: seq<string>)
    requires sample != [] && control != []
    ensures var (s, c) := Cursors(sample, control); Starts(sample, control, s, c)
  {
    assert forall frame :: NamesRoot(frame) <==> IsRoot(frame);
  }

  method FindStart(sample: seq<string>, control: seq<string>) returns (s: int, c: int)
    requires sample != [] && control != []
    ensures (s, c) == Cursors(sample, control)
    ensures Starts(sample, control, s, c)
  {
    s, c := 0, 0;
    assert sample[0..] == sample && control[0..] == control;
    while s < |sample| && !IsRoot(sample[s])
      invariant 0 <= s <= |sample| && FirstRoot(sample) == s + FirstRoot(sample[s..])
    {
      assert sample[s..][1..] == sample[s + 1..];
      s := s + 1;
    }
    while c < |control| && !IsRoot(control[c])
      invariant 0 <= c <= |control| && FirstRoot(control) == c + FirstRoot(control[c..])
    {
      assert control[c..][1..] == control[c + 1..];
      c := c + 1;
    }
    if s == |sample| || c == |control| {
      s := |sample| - 1;
      c := |control| - 1;
      while s >= 1 && c >= 0 && sample[s] != control[c]
        invariant -1 <= c < |control| && s == |sample| - 1
        invariant s >= 1 ==> LastEqual(control, sample[s], |control| - 1) == LastEqual(control, sample[s], c)
        invariant s < 1 ==> c == |control| - 1
        decreases c
      {
        c := c - 1;
      }
    }
    CursorsStart(sample, control);
  }

  /** The index of the frame's line in the sample. */
  method FindFrame(sample: seq<string>, control: seq<string>) returns (frame: Option<nat>)
    requires sample != [] && control != []
    ensures Finds(sample, control, frame)
  {
    var s, c := FindStart(sample, control);
    ghost var s0, c0 := s, c;
    ghost var k := 0;
    while s >= 1 && c >= 0
      invariant s == s0 - k && c == c0 - k && 0 <= k && -1 <= c && 0 <= s
      invariant forall j {:trigger SameAt(sample, control, s0, c0, j)} :: 0 <= j < k ==>
                  SameAt(sample, control, s0, c0, j)
      decreases s
    {
      if sample[s] != control[c] {
        ghost var k1 := k;
        assert !SameAt(sample, control, s0, c0, k1);
        if s != 1 || c != 1 {
          frame := NextMismatch(sample, control, s, c, s0, c0, k1);
          return;
        }
        forall j1, j2 ensures !IsFrame(sample, control, s0, c0, j1, j2) {
          var _ := SameAt(sample, control, s0, c0, j1);
        }
        return None;
      }
      assert SameAt(sample, control, s0, c0, k);
      s, c, k := s - 1, c - 1, k + 1;
    }
    forall j1, j2 ensures !IsFrame(sample, control, s0, c0, j1, j2) {
      var _ := SameAt(sample, control, s0, c0, j1);
    }
    return None;
  }

  /** The inner loop: from the first mismatch on to the next one. */
  method NextMismatch(sample: seq<string>, control: seq<string>, s1: int, c1: int, ghost s0: int, ghost c0: int,
                      ghost k1: int)
    returns (frame: Option<nat>)
    requires 0 <= s0 < |sample| && -1 <= c0 < |control| && 0 <= k1 && s1 == s0 - k1 >= 1 && c1 == c0 - k1 >= 0
    requires forall j {:trigger SameAt(sample, control, s0, c0, j)} :: 0 <= j < k1 ==>
               SameAt(sample, control, s0, c0, j)
    requires !SameAt(sample, control, s0, c0, k1) && (s1 != 1 || c1 != 1)
    ensures match frame
            case Some(i) => exists k1, k2 :: IsFrame(sample, control, s0, c0, k1, k2) && i == s0 - k2
            case None => forall k1, k2 :: !IsFrame(sample, control, s0, c0, k1, k2)
  {
    var s, c := s1 - 1, c1 - 1;
    ghost var k := k1 + 1;
    while c >= 0 && sample[s] == control[c] && s >= 1 && c >= 0
      invariant s == s0 - k && c == c0 - k && k1 < k && -1 <= c && 0 <= s
      invariant forall j {:trigger SameAt(sample, control, s0, c0, j)} :: k1 < j < k ==>
                  SameAt(sample, control, s0, c0, j)
      decreases s
    {
      assert SameAt(sample, control, s0, c0, k);
      s, c, k := s - 1, c - 1, k + 1;
    }
    if c < 0 || sample[s] != control[c] {
      assert IsFrame(sample, control, s0, c0, k1, k);
      return Some(s);
    }
    assert SameAt(sample, control, s0, c0, k);
    forall j1, j2 ensures !IsFrame(sample, control, s0, c0, j1, j2) {
      var _, _ := SameAt(sample, control, s0, c0, j1), SameAt(sample, control, s0, c0, j2);
    }
    return None;
  }

  /** What FindFrame returns: the line at the second mismatch, if there is one. */
  ghost predicate Finds(sample: seq<string>, control: seq<string>, frame: Option<nat>)
    requires sample != [] && control != []
  {
    var (s, c) := Cursors(sample, control);
    match frame
    case Some(i) => exists k1, k2 :: IsFrame(sample, control, s, c, k1, k2) && i == s - k2
    case None => forall k1, k2 :: !IsFrame(sample, control, s, c, k1, k2)
  }

  lemma FirstRootAt(before: seq<string>, root: string, below: seq<string>)
    requires IsRoot(root) && forall k :: 0 <= k < |before| ==> !IsRoot(before[k])
    ensures FirstRoot(before + [root] + below) == |before|
  {
    var lines := before + [root] + below;
    assert lines[|before|] == root;
    forall k | 0 <= k < |before| ensures !IsRoot(lines[k]) { assert lines[k] == before[k]; }
  }

  /** The stacks it is made for: above the first root lines, which differ, come the same frames of the call
      in both, and above those the component's line, where the control has another line or none. That
      line, and no other, is what is found, unless both root lines are second lines. */
  lemma ComponentLineIsFound(above: seq<string>, component: string, call: seq<string>, root: string, below: seq<string>,
                             controlAbove: seq<string>, controlRoot: string, controlBelow: seq<string>,
                             frame: Option<nat>)
    requires IsRoot(root) && IsRoot(controlRoot) && root != controlRoot
    requires forall k :: 0 <= k < |above| ==> !IsRoot(above[k])
    requires forall k :: 0 <= k < |call| ==> !IsRoot(call[k])
    requires forall k :: 0 <= k < |controlAbove| ==> !IsRoot(controlAbove[k])
    requires !IsRoot(component)
    requires controlAbove != [] ==> controlAbove[|controlAbove| - 1] != component
    requires |above| + |call| > 0 || |controlAbove| + |call| != 1
    ensures var sample := (above + [component] + call) + [root] + below;
            var control := (controlAbove + call) + [controlRoot] + controlBelow;
            Finds(sample, control, frame) <==> frame == Some(|above|)
  {
    var sample := (above + [component] + call) + [root] + below;
    var control := (controlAbove + call) + [controlRoot] + controlBelow;
    FirstRootAt(above + [component] + call, root, below);
    FirstRootAt(controlAbove + call, controlRoot, controlBelow);
    var s, c := |above| + 1 + |call|, |controlAbove| + |call|;
    assert Cursors(sample, control) == (s, c);
    ComponentIsFrame(above, component, call, root, below, controlAbove, controlRoot, controlBelow);
    forall k1, k2 | IsFrame(sample, control, s, c, k1, k2) ensures k2 == |call| + 1 {
      FrameIsUnique(sample, control, s, c, k1, k2, 0, |call| + 1);
    }
  }

  lemma ComponentIsFrame(above: seq<string>, component: string, call: seq<string>, root: string, below: seq<string>,
                         controlAbove: seq<string>, controlRoot: string, controlBelow: seq<string>)
    requires root != controlRoot
    requires controlAbove != [] ==> controlAbove[|controlAbove| - 1] != component
    requires |above| + |call| > 0 || |controlAbove| + |call| != 1
    ensures IsFrame((above + [component] + call) + [root] + below, (controlAbove + call) + [controlRoot] + controlBelow,
                    |above| + 1 + |call|, |controlAbove| + |call|, 0, |call| + 1)
  {
    var sample := (above + [component] + call) + [root] + below;
    var control := (controlAbove + call) + [controlRoot] + controlBelow;
    var s, c := |above| + 1 + |call|, |controlAbove| + |call|;
    assert sample[s] == root && control[c] == controlRoot;
    forall k | 0 < k < |call| + 1 ensures SameAt(sample, control, s, c, k) {
      assert sample[s - k] == call[|call| - k] == control[c - k];
    }
    assert sample[s - (|call| + 1)] == component;
    if controlAbove != [] {
      assert control[c - (|call| + 1)] == controlAbove[|controlAbove| - 1];
    }
  }
}
