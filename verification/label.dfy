/** The label a field derives from its name: split the name before every
    upper-case letter (`split(/(?=[A-Z])/)`), join the pieces with single
    spaces, and upper-case the first character (`replace(/^\w/, ...)`).
    Both regular expressions are ASCII-only. */
module Label {

  predicate IsUpper(c: char)
  {
    'A' <= c <= 'Z'
  }

  predicate IsLower(c: char)
  {
    'a' <= c <= 'z'
  }

  /** `toUpperCase` of a character matched by `\w`: only `a`..`z` change. */
  function ToUpper(c: char): (u: char)
    ensures IsLower(c) ==> IsUpper(u) && u as int == c as int - 32
    ensures !IsLower(c) ==> u == c
  {
    if IsLower(c) then (c as int - 32) as char else c
  }

  /** `replace(/^\w/, c => c.toUpperCase())`: the first character upper-cased. */
  function CapitalizeFirst(s: string): (r: string)
    ensures |r| == |s|
    ensures |s| > 0 ==> r[0] == ToUpper(s[0])
    ensures forall i :: 1 <= i < |s| ==> r[i] == s[i]
  {
    if |s| == 0 then s else [ToUpper(s[0])] + s[1..]
  }

  /** The first index at or after `i` holding an upper-case letter, or `|s|`. */
  function NextUpper(s: string, i: nat): (j: nat)
    requires i <= |s|
    ensures i <= j <= |s|
    ensures j < |s| ==> IsUpper(s[j])
    ensures forall t :: i <= t < j ==> !IsUpper(s[t])
    decreases |s| - i
  {
    if i == |s| || IsUpper(s[i]) then i else NextUpper(s, i + 1)
  }

  /** `s.split(/(?=[A-Z])/)`: the zero-width separator matches before each
      upper-case letter, but never at index 0, so no piece is empty unless
      the whole name is. */
  function SplitBeforeUpper(s: string): (parts: seq<string>)
    ensures |parts| >= 1
    ensures Join(parts, "") == s
    ensures |s| > 0 ==> forall k :: 0 <= k < |parts| ==> parts[k] != ""
    ensures forall k :: 1 <= k < |parts| ==> parts[k] != "" && IsUpper(parts[k][0])
    ensures forall k, t :: 0 <= k < |parts| && 1 <= t < |parts[k]| ==> !IsUpper(parts[k][t])
    decreases |s|
  {
    if |s| == 0 then [""]
    else
      var j := NextUpper(s, 1);
      if j == |s| then [s]
      else
        var rest := SplitBeforeUpper(s[j..]);
        JoinCons(s[..j], rest, "");
        assert s[..j] + "" + s[j..] == s;
        [s[..j]] + rest
  }

  /** `parts.join(sep)` */
  function Join(parts: seq<string>, sep: string): string
    decreases |parts|
  {
    if |parts| == 0 then ""
    else if |parts| == 1 then parts[0]
    else parts[0] + sep + Join(parts[1..], sep)
  }

  /** The label of a field name, computed as the source does: the first
      character upper-cased, then the rest of the name with one space
      before each upper-case letter. */
  function Label(name: string): (r: string)
    ensures r == CapitalizeFirst(Spaced(name))
    ensures |name| > 0 ==> r == [ToUpper(name[0])] + SpaceUppers(name[1..])
  {
    SplitJoinIsSpaced(name);
    CapitalizeFirst(Join(SplitBeforeUpper(name), " "))
  }

  // ---------------------------------------------------------------------
  // Reference definition: one space inserted before every upper-case
  // letter after the first character, nothing else changed.

  function SpaceUppers(t: string): string
    decreases |t|
  {
    if |t| == 0 then ""
    else (if IsUpper(t[0]) then [' ', t[0]] else [t[0]]) + SpaceUppers(t[1..])
  }

  function Spaced(s: string): string
  {
    if |s| == 0 then "" else [s[0]] + SpaceUppers(s[1..])
  }

  /** Number of upper-case letters in `t`. */
  function CountUpper(t: string): nat
    decreases |t|
  {
    if |t| == 0 then 0 else (if IsUpper(t[0]) then 1 else 0) + CountUpper(t[1..])
  }

  /** `t` with every space removed. */
  function Strip(t: string): string
    decreases |t|
  {
    if |t| == 0 then "" else (if t[0] == ' ' then "" else [t[0]]) + Strip(t[1..])
  }

  lemma {:induction false} SpaceUppersAppend(a: string, b: string)
    ensures SpaceUppers(a + b) == SpaceUppers(a) + SpaceUppers(b)
    decreases |a|
  {
    if |a| == 0 {
      assert a + b == b;
    } else {
      assert (a + b)[0] == a[0];
      assert (a + b)[1..] == a[1..] + b;
      SpaceUppersAppend(a[1..], b);
    }
  }

  lemma {:induction false} SpaceUppersNoUpper(a: string)
    requires forall t :: 0 <= t < |a| ==> !IsUpper(a[t])
    ensures SpaceUppers(a) == a
    decreases |a|
  {
    if |a| > 0 {
      SpaceUppersNoUpper(a[1..]);
    }
  }

  /** Spacing a name whose upper-case letters (after the first character)
      start at `j`: the part before `j` is kept and one space precedes the
      rest. */
  lemma SpacedAtBoundary(s: string, j: nat)
    requires 1 <= j <= |s|
    requires forall t :: 1 <= t < j ==> !IsUpper(s[t])
    requires j < |s| ==> IsUpper(s[j])
    ensures j == |s| ==> Spaced(s) == s
    ensures j < |s| ==> Spaced(s) == s[..j] + " " + Spaced(s[j..])
  {
    var head, tail := s[1..j], s[j..];
    SpaceUppersNoUpper(head);
    assert s[1..] == head + tail;
    SpaceUppersAppend(head, tail);
    assert Spaced(s) == [s[0]] + head + SpaceUppers(tail);
    assert s[..j] == [s[0]] + head;
    if j == |s| {
      assert tail == [];
      assert s == s[..j];
    } else {
      SpaceUppersUpperHead(tail);
    }
  }

  lemma SpaceUppersUpperHead(t: string)
    requires |t| > 0 && IsUpper(t[0])
    ensures SpaceUppers(t) == " " + Spaced(t)
  {
  }

  lemma JoinCons(head: string, rest: seq<string>, sep: string)
    requires |rest| >= 1
    ensures Join([head] + rest, sep) == head + sep + Join(rest, sep)
  {
    assert ([head] + rest)[0] == head;
    assert ([head] + rest)[1..] == rest;
  }

  /** Joining the pieces of `split(/(?=[A-Z])/)` with spaces is exactly the
      reference spacing. */
  lemma {:induction false} SplitJoinIsSpaced(s: string)
    ensures Join(SplitBeforeUpper(s), " ") == Spaced(s)
    decreases |s|
  {
    if |s| > 0 {
      var j := NextUpper(s, 1);
      SpacedAtBoundary(s, j);
      if j < |s| {
        SplitJoinIsSpaced(s[j..]);
        JoinCons(s[..j], SplitBeforeUpper(s[j..]), " ");
      }
    }
  }

  lemma {:induction false} SpaceUppersLength(t: string)
    ensures |SpaceUppers(t)| == |t| + CountUpper(t)
    decreases |t|
  {
    if |t| > 0 {
      SpaceUppersLength(t[1..]);
    }
  }

  /** The label is as long as the name plus one space per upper-case letter
      after the first character. */
  lemma LabelLength(name: string)
    ensures |name| == 0 ==> Label(name) == ""
    ensures |name| > 0 ==> |Label(name)| == |name| + CountUpper(name[1..])
  {
    if |name| > 0 {
      SpaceUppersLength(name[1..]);
    }
  }

  lemma {:induction false} StripAppend(a: string, b: string)
    ensures Strip(a + b) == Strip(a) + Strip(b)
    decreases |a|
  {
    if |a| == 0 {
      assert a + b == b;
    } else {
      assert (a + b)[0] == a[0];
      assert (a + b)[1..] == a[1..] + b;
      StripAppend(a[1..], b);
    }
  }

  lemma {:induction false} StripSpaceUppers(t: string)
    ensures Strip(SpaceUppers(t)) == Strip(t)
    decreases |t|
  {
    if |t| > 0 {
      var head := if IsUpper(t[0]) then [' ', t[0]] else [t[0]];
      StripAppend(head, SpaceUppers(t[1..]));
      StripSpaceUppers(t[1..]);
      if IsUpper(t[0]) {
        assert [' ', t[0]][1..] == [t[0]];
        assert [t[0]][1..] == [];
      } else {
        assert [t[0]][1..] == [];
      }
    }
  }

  /** Only spaces are inserted: removing every space from the label gives
      the capitalised name with its own spaces removed, so every other
      character of the name appears in order and unchanged. */
  lemma LabelOnlyInsertsSpaces(name: string)
    ensures Strip(Label(name)) == Strip(CapitalizeFirst(name))
    ensures (forall t :: 0 <= t < |name| ==> name[t] != ' ') ==> Strip(Label(name)) == CapitalizeFirst(name)
  {
    if |name| > 0 {
      StripAppend([ToUpper(name[0])], SpaceUppers(name[1..]));
      StripAppend([ToUpper(name[0])], name[1..]);
      StripSpaceUppers(name[1..]);
      assert [ToUpper(name[0])][1..] == [];
    }
    if forall t :: 0 <= t < |name| ==> name[t] != ' ' {
      StripNoSpace(CapitalizeFirst(name));
    }
  }

  lemma {:induction false} StripNoSpace(t: string)
    requires forall i :: 0 <= i < |t| ==> t[i] != ' '
    ensures Strip(t) == t
    decreases |t|
  {
    if |t| > 0 {
      StripNoSpace(t[1..]);
    }
  }
}
