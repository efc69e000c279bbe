// dynamic/utils.go toLowerCamelCase, the flag spelling in handlers/create.go, and the field
// table of GenerateAndUploadSchema: names of driver flags and of schema fields.
module Naming {
  import opened GoStrings

  datatype Result<+T> = Ok(value: T) | Err | Panic

  // strings.ToUpper(part[:1]) + part[1:]
  function Capitalize(part: string): string {
    if part == "" then "" else [UpperChar(part[0])] + part[1..]
  }

  function CamelTail(parts: seq<string>): string {
    if parts == [] then "" else Capitalize(parts[0]) + CamelTail(parts[1..])
  }

  function IndexOf(s: string, c: char): (i: nat)
    ensures i <= |s|
    ensures forall k :: 0 <= k < i ==> s[k] != c
    ensures i < |s| ==> s[i] == c
  {
    if s == "" || s[0] == c then 0 else 1 + IndexOf(s[1..], c)
  }

  // An empty part after the first.
  predicate HasEmptyPart(parts: seq<string>) {
    exists k :: 1 <= k < |parts| && parts[k] == ""
  }

  // What toLowerCamelCase makes of a flag: an error without a hyphen, a panic when a part after
  // the second hyphen is empty.
  function CamelCase(flag: string): Result<string> {
    var i := IndexOf(flag, '-');
    if i == |flag| then Err
    else
      var parts := Split(flag[i + 1..], '-');
      if HasEmptyPart(parts) then Panic
      else
        Ok(parts[0] + CamelTail(parts[1..]))
  }

  lemma CamelTailStep(s: string, parts: seq<string>, k: nat)
    requires k < |parts|
    ensures s + CamelTail(parts[k..]) == s + Capitalize(parts[k]) + CamelTail(parts[k + 1..])
  {
    assert parts[k..][0] == parts[k] && parts[k..][1..] == parts[k + 1..];
  }

  method ToLowerCamelCase(machineFlagName: string) returns (r: Result<string>)
    ensures r == CamelCase(machineFlagName)
  {
    var i := IndexOf(machineFlagName, '-');
    if i == |machineFlagName| {
      return Err;
    }
    var parts := Split(machineFlagName[i + 1..], '-');
    r := JoinParts(parts);
  }

  // The loop of toLowerCamelCase; taking the first character of an empty part panics.
  method JoinParts(parts: seq<string>) returns (r: Result<string>)
    requires parts != []
    ensures r == if HasEmptyPart(parts) then Panic else Ok(parts[0] + CamelTail(parts[1..]))
  {
    var flagName := parts[0];
    for k := 1 to |parts|
      invariant forall j :: 1 <= j < k ==> parts[j] != ""
      invariant flagName + CamelTail(parts[k..]) == parts[0] + CamelTail(parts[1..])
    {
      if parts[k] == "" {
        return Panic;
      }
      CamelTailStep(flagName, parts, k);
      flagName := flagName + Capitalize(parts[k]);
    }
    assert parts[|parts|..] == [] && flagName + "" == flagName;
    return Ok(flagName);
  }

  // regExHyphen.ReplaceAllString(s, "${1}-${2}") for ([a-z])([A-Z])
  function Hyphenate(s: string): string {
    if |s| < 2 then s
    else if IsLower(s[0]) && IsUpper(s[1]) then [s[0], '-', s[1]] + Hyphenate(s[2..])
    else [s[0]] + Hyphenate(s[1..])
  }

  // The text of a field, spelt as a flag.
  function Back(field: string): string {
    ToLower(Hyphenate(field))
  }

  // buildMachineCreateCmd's flag for a field of the driver's config, without the leading "--"
  function FlagOf(sDriver: string, field: string): string {
    sDriver + "-" + Back(field)
  }

  // ---------- the round trip ----------

  predicate FlagChar(c: char) {
    IsLower(c) || IsDigit(c)
  }

  predicate Segment(p: string) {
    p != "" && forall i :: 0 <= i < |p| ==> FlagChar(p[i])
  }

  predicate Segments(segs: seq<string>) {
    segs != [] && forall i :: 0 <= i < |segs| ==> Segment(segs[i])
  }

  function Flag(driver: string, segs: seq<string>): string {
    driver + "-" + JoinWith(segs, '-')
  }

  function Camel(segs: seq<string>): string
    requires Segments(segs)
  {
    segs[0] + CamelTail(segs[1..])
  }

  // Where a flag can be recovered from its field: every segment after the first starts with a
  // letter, every one but the last ends with a letter, and those in the middle have two
  // characters or more.
  predicate StartsLower(p: string) {
    p != "" && IsLower(p[0])
  }

  predicate Recoverable(segs: seq<string>)
    requires Segments(segs)
  {
    && (forall i :: 1 <= i < |segs| ==> StartsLower(segs[i]))
    && (forall i :: 0 <= i < |segs| - 1 ==> IsLower(segs[i][|segs[i]| - 1]))
    && (forall i :: 1 <= i < |segs| - 1 ==> |segs[i]| >= 2)
  }

  lemma {:induction false} IndexOfAppend(a: string, b: string, c: char)
    requires c !in a
    ensures IndexOf(a + [c] + b, c) == |a|
  {
    if a != "" {
      assert (a + [c] + b)[1..] == a[1..] + [c] + b;
      IndexOfAppend(a[1..], b, c);
    }
  }

  lemma CamelCaseOfFlag(driver: string, segs: seq<string>)
    requires '-' !in driver && Segments(segs)
    ensures CamelCase(Flag(driver, segs)) == Ok(Camel(segs))
  {
    var rest := JoinWith(segs, '-');
    var flag := Flag(driver, segs);
    assert flag == driver + ['-'] + rest;
    IndexOfAppend(driver, rest, '-');
    assert flag[|driver| + 1..] == rest;
    forall p | p in segs ensures '-' !in p {
      var i :| 0 <= i < |segs| && segs[i] == p;
      assert Segment(segs[i]);
    }
    SplitJoin(segs, '-');
  }

  // There is a hyphen between a and b just when a ends in a lower-case and b starts with an
  // upper-case letter.
  predicate Boundary(a: string, b: string) {
    a != "" && b != "" && IsLower(a[|a| - 1]) && IsUpper(b[0])
  }

  // The replacement takes two characters at once.
  lemma {:induction false} HyphenateTwo(s: string)
    requires |s| >= 2 && IsLower(s[0]) && IsUpper(s[1])
    ensures Hyphenate(s) == [s[0], '-', s[1]] + Hyphenate(s[2..])
  {
  }

  lemma {:induction false} HyphenateOne(s: string)
    requires |s| >= 2 && !(IsLower(s[0]) && IsUpper(s[1]))
    ensures Hyphenate(s) == [s[0]] + Hyphenate(s[1..])
  {
  }

  lemma HyphenateHead(c: char, b: string)
    ensures Hyphenate([c] + b) == [c] + (if Boundary([c], b) then "-" else "") + Hyphenate(b)
  {
    var s := [c] + b;
    assert s[1..] == b;
    if b == "" {
      assert s == [c];
    } else if Boundary([c], b) {
      assert s[2..] == b[1..];
      HyphenateTwo(s);
      HyphenateUpper(b);
    } else {
      HyphenateOne(s);
    }
  }

  lemma BoundaryTail(a: string, b: string, k: nat)
    requires k < |a|
    ensures Boundary(a[k..], b) == Boundary(a, b)
  {
  }

  lemma Regroup4(x: string, h: string, m: string, t: string)
    ensures x + (h + m + t) == (x + h) + m + t
  {
  }

  lemma {:induction false} HyphenateAppend(a: string, b: string)
    ensures Hyphenate(a + b) == Hyphenate(a) + (if Boundary(a, b) then "-" else "") + Hyphenate(b)
    decreases |a|
  {
    var s := a + b;
    var m := if Boundary(a, b) then "-" else "";
    if a == "" {
      assert s == b;
    } else if |a| == 1 {
      assert a == [a[0]];
      HyphenateHead(a[0], b);
    } else {
      var two := IsLower(a[0]) && IsUpper(a[1]);
      var k := if two then 2 else 1;
      assert s[0] == a[0] && s[1] == a[1] && s[k..] == a[k..] + b;
      HyphenateAppend(a[k..], b);
      if two {
        HyphenateTwo(s);
        HyphenateTwo(a);
      } else {
        HyphenateOne(s);
        HyphenateOne(a);
      }
      if k < |a| {
        BoundaryTail(a, b, k);
      }
      Regroup4(if two then [a[0], '-', a[1]] else [a[0]], Hyphenate(a[k..]), m, Hyphenate(b));
    }
  }

  lemma {:induction false} HyphenateUpper(b: string)
    requires b != "" && IsUpper(b[0])
    ensures Hyphenate(b) == [b[0]] + Hyphenate(b[1..])
  {
    if |b| == 1 { assert b[1..] == ""; assert b == [b[0]]; }
  }

  lemma {:induction false} HyphenateNoUpper(s: string)
    requires forall i :: 1 <= i < |s| ==> !IsUpper(s[i])
    ensures Hyphenate(s) == s
  {
    if |s| >= 2 {
      HyphenateNoUpper(s[1..]);
      assert [s[0]] + s[1..] == s;
    }
  }

  lemma LowerAppend(a: string, b: string)
    ensures ToLower(a + b) == ToLower(a) + ToLower(b)
  {
  }

  lemma BackAppend(a: string, b: string)
    ensures Back(a + b) == Back(a) + (if Boundary(a, b) then "-" else "") + Back(b)
  {
    HyphenateAppend(a, b);
    var gap := if Boundary(a, b) then "-" else "";
    assert ToLower(gap) == gap;
    LowerAppend(Hyphenate(a), gap);
    LowerAppend(Hyphenate(a) + gap, Hyphenate(b));
  }

  lemma BackSegment(p: string)
    requires Segment(p)
    ensures Back(p) == p
  {
    HyphenateNoUpper(p);
  }

  lemma BackCapitalized(p: string)
    requires Segment(p)
    ensures Back(Capitalize(p)) == p
  {
    var c := Capitalize(p);
    forall i | 1 <= i < |c| ensures !IsUpper(c[i]) {
      assert FlagChar(p[i]);
    }
    HyphenateNoUpper(c);
    assert FlagChar(p[0]);
    forall i | 0 <= i < |p| ensures ToLower(c)[i] == p[i] {
      assert FlagChar(p[i]);
    }
  }

  // After a capitalised segment comes a hyphen only if it ends in a lower-case letter, and
  // that is not its first character.
  predicate EndsLower(p: string)
    requires p != ""
  {
    |p| >= 2 && IsLower(p[|p| - 1])
  }

  predicate AllSegments(tail: seq<string>) {
    forall i :: 0 <= i < |tail| ==> Segment(tail[i])
  }

  // What comes back of capitalised segments that follow other text.
  function Spelt(headEndsLower: bool, tail: seq<string>): string
    requires AllSegments(tail)
    decreases |tail|
  {
    if tail == [] then ""
    else
      assert Segment(tail[0]);
      (if headEndsLower && IsLower(tail[0][0]) then "-" else "") + tail[0] + Spelt(EndsLower(tail[0]), tail[1..])
  }

  function Dashed(tail: seq<string>): string {
    if tail == [] then "" else "-" + tail[0] + Dashed(tail[1..])
  }

  // A tail of segments is spelt with its first segment, behind a hyphen if there is a boundary.
  lemma {:induction false} SpeltHead(head: string, tail: seq<string>)
    requires head != "" && tail != [] && AllSegments(tail)
    ensures Segment(tail[0])
    ensures var gap := if Boundary(head, CamelTail(tail)) then "-" else "";
            Spelt(IsLower(head[|head| - 1]), tail) == gap + tail[0] + Spelt(EndsLower(tail[0]), tail[1..])
  {
    assert Segment(tail[0]);
    CapitalizedBoundary(head, tail[0], CamelTail(tail[1..]));
  }

  lemma {:induction false} BackTail(head: string, tail: seq<string>)
    requires head != "" && AllSegments(tail)
    ensures Back(head + CamelTail(tail)) == Back(head) + Spelt(IsLower(head[|head| - 1]), tail)
    decreases |tail|, 1
  {
    var b := CamelTail(tail);
    var gap := if Boundary(head, b) then "-" else "";
    BackAppend(head, b);
    if tail == [] {
      assert b == "" && Back("") == "";
    } else {
      SpeltHead(head, tail);
      BackOfTail(tail);
      Regroup(Back(head), gap, tail[0], Spelt(EndsLower(tail[0]), tail[1..]));
    }
  }

  lemma {:induction false} BackOfTail(tail: seq<string>)
    requires tail != [] && AllSegments(tail)
    ensures Back(CamelTail(tail)) == tail[0] + Spelt(EndsLower(tail[0]), tail[1..])
    decreases |tail|, 0
  {
    var p := tail[0];
    assert Segment(p);
    CapitalizedBoundary(p, p, "");
    BackTail(Capitalize(p), tail[1..]);
    BackCapitalized(p);
  }

  lemma Regroup(a: string, b: string, c: string, d: string)
    ensures a + b + (c + d) == a + (b + c + d)
  {
  }

  lemma CapitalizedBoundary(head: string, p: string, rest: string)
    requires head != "" && Segment(p)
    ensures Boundary(head, Capitalize(p) + rest) <==> IsLower(head[|head| - 1]) && IsLower(p[0])
    ensures IsLower(Capitalize(p)[|p| - 1]) <==> EndsLower(p)
  {
    assert FlagChar(p[0]);
    assert (Capitalize(p) + rest)[0] == Capitalize(p)[0];
  }

  predicate TailRecoverable(headEndsLower: bool, tail: seq<string>)
    requires AllSegments(tail)
    decreases |tail|
  {
    tail == [] || (assert Segment(tail[0]);
                   headEndsLower && IsLower(tail[0][0]) && TailRecoverable(EndsLower(tail[0]), tail[1..]))
  }

  lemma {:induction false} SpeltIff(headEndsLower: bool, tail: seq<string>)
    requires AllSegments(tail)
    ensures |Spelt(headEndsLower, tail)| <= |Dashed(tail)|
    ensures Spelt(headEndsLower, tail) == Dashed(tail) <==> TailRecoverable(headEndsLower, tail)
    decreases |tail|
  {
    if tail != [] {
      var p := tail[0];
      assert Segment(p);
      SpeltIff(EndsLower(p), tail[1..]);
      var rest := Spelt(EndsLower(p), tail[1..]);
      if headEndsLower && IsLower(p[0]) {
        var n := 1 + |p|;
        assert Spelt(headEndsLower, tail)[n..] == rest;
        assert Dashed(tail)[n..] == Dashed(tail[1..]);
      } else {
        assert Spelt(headEndsLower, tail) == p + rest;
      }
    }
  }

  lemma {:induction false} JoinDashed(segs: seq<string>)
    requires segs != []
    ensures JoinWith(segs, '-') == segs[0] + Dashed(segs[1..])
  {
    if |segs| > 1 {
      JoinDashed(segs[1..]);
    }
  }

  lemma {:induction false} TailRecoverableIff(headEndsLower: bool, tail: seq<string>)
    requires AllSegments(tail)
    ensures TailRecoverable(headEndsLower, tail) <==>
              && (tail != [] ==> headEndsLower)
              && (forall i :: 0 <= i < |tail| ==> StartsLower(tail[i]))
              && (forall i :: 0 <= i < |tail| - 1 ==> EndsLower(tail[i]))
    decreases |tail|
  {
    if tail != [] {
      assert Segment(tail[0]);
      TailRecoverableIff(EndsLower(tail[0]), tail[1..]);
      assert forall i :: 0 <= i < |tail[1..]| ==> tail[1..][i] == tail[i + 1];
      assert forall i :: 1 <= i < |tail| ==> tail[i] == tail[1..][i - 1];
      if |tail| > 1 { assert tail[1..] != []; }
    }
  }

  // A flag's field name, spelt as a flag again, is that flag exactly when it is recoverable.
  lemma FlagRoundTrip(driver: string, segs: seq<string>)
    requires '-' !in driver && Segments(segs)
    ensures CamelCase(Flag(driver, segs)).Ok?
    ensures FlagOf(driver, CamelCase(Flag(driver, segs)).value) == Flag(driver, segs) <==> Recoverable(segs)
  {
    CamelCaseOfFlag(driver, segs);
    BackIff(segs);
    var back := Back(Camel(segs));
    var flag, again := Flag(driver, segs), driver + "-" + back;
    assert flag[|driver| + 1..] == JoinWith(segs, '-') && again[|driver| + 1..] == back;
  }

  lemma FlagOfCamel(driver: string, segs: seq<string>)
    requires Segments(segs) && Recoverable(segs)
    ensures FlagOf(driver, Camel(segs)) == Flag(driver, segs)
  {
    BackIff(segs);
  }

  lemma {:induction false} BackIff(segs: seq<string>)
    requires Segments(segs)
    ensures Back(Camel(segs)) == JoinWith(segs, '-') <==> Recoverable(segs)
  {
    var head, tail := segs[0], segs[1..];
    assert Segment(head);
    BackSegment(head);
    BackTail(head, tail);
    SpeltIff(IsLower(head[|head| - 1]), tail);
    JoinDashed(segs);
    var back := Back(Camel(segs));
    assert back[|head|..] == Spelt(IsLower(head[|head| - 1]), tail);
    assert JoinWith(segs, '-')[|head|..] == Dashed(tail);
    TailRecoverableIff(IsLower(head[|head| - 1]), tail);
    RecoverableTail(segs);
  }

  lemma RecoverableTail(segs: seq<string>)
    requires Segments(segs)
    ensures Recoverable(segs) <==>
              && (segs[1..] != [] ==> IsLower(segs[0][|segs[0]| - 1]))
              && (forall i :: 0 <= i < |segs[1..]| ==> StartsLower(segs[1..][i]))
              && (forall i :: 0 <= i < |segs[1..]| - 1 ==> EndsLower(segs[1..][i]))
  {
    var tail := segs[1..];
    assert forall i :: 0 <= i < |tail| ==> tail[i] == segs[i + 1];
    assert forall i :: 1 <= i < |segs| ==> segs[i] == tail[i - 1];
  }

  // ---------- flags that share a field ----------

  // The segments after every one that starts with a digit was joined to the one before it.
  function Merge(segs: seq<string>): seq<string>
    decreases |segs|
  {
    if |segs| < 2 then segs
    else if segs[1] != "" && IsDigit(segs[1][0]) then Merge([segs[0] + segs[1]] + segs[2..])
    else [segs[0]] + Merge(segs[1..])
  }

  // Segments that all start with a letter, but for the first.
  predicate Merged(segs: seq<string>) {
    Segments(segs) && forall i :: 1 <= i < |segs| ==> StartsLower(segs[i])
  }

  lemma CapitalizeDigit(p: string, rest: string)
    requires p != "" && IsDigit(p[0])
    ensures Capitalize(p) == p
  {
    assert [p[0]] + p[1..] == p;
  }

  lemma SegmentsTail(segs: seq<string>)
    requires Segments(segs) && |segs| > 1
    ensures Segments(segs[1..])
    ensures Segments([segs[0] + segs[1]] + segs[2..])
  {
    var tail, joined := segs[1..], [segs[0] + segs[1]] + segs[2..];
    forall i | 0 <= i < |tail| ensures Segment(tail[i]) {
      assert tail[i] == segs[i + 1];
    }
    assert Segment(segs[0]) && Segment(segs[1]);
    forall i | 0 <= i < |joined| ensures Segment(joined[i]) {
      if i > 0 { assert joined[i] == segs[i + 1]; }
    }
  }

  // Joining does not change the field.
  lemma CamelJoined(segs: seq<string>)
    requires Segments(segs) && |segs| > 1 && IsDigit(segs[1][0])
    ensures Segments([segs[0] + segs[1]] + segs[2..]) && Camel([segs[0] + segs[1]] + segs[2..]) == Camel(segs)
  {
    SegmentsTail(segs);
    CapitalizeDigit(segs[1], "");
    assert segs[1..][1..] == segs[2..];
    assert ([segs[0] + segs[1]] + segs[2..])[1..] == segs[2..];
    assert segs[0] + (segs[1] + CamelTail(segs[2..])) == segs[0] + segs[1] + CamelTail(segs[2..]);
  }

  lemma {:induction false} MergeKeeps(segs: seq<string>)
    requires Segments(segs)
    ensures Merged(Merge(segs)) && Camel(Merge(segs)) == Camel(segs)
    ensures segs[0] <= Merge(segs)[0]
    ensures |segs| == 1 || !IsDigit(segs[1][0]) ==> Merge(segs)[0] == segs[0]
    decreases |segs|
  {
    if |segs| > 1 {
      assert Segment(segs[1]);
      SegmentsTail(segs);
      if IsDigit(segs[1][0]) {
        CamelJoined(segs);
        MergeKeeps([segs[0] + segs[1]] + segs[2..]);
      } else {
        MergeKeeps(segs[1..]);
        MergeCons(segs[0], segs[1..], Merge(segs[1..]));
      }
    }
  }

  lemma MergeCons(head: string, tail: seq<string>, merged: seq<string>)
    requires Segment(head) && Segments(tail) && Merged(merged) && Camel(merged) == Camel(tail)
    requires tail[0] <= merged[0] && StartsLower(tail[0])
    ensures Merged([head] + merged) && Segments([head] + tail) && Camel([head] + merged) == Camel([head] + tail)
  {
    var r, t := [head] + merged, [head] + tail;
    forall i | 0 <= i < |r| ensures Segment(r[i]) && (i > 0 ==> StartsLower(r[i])) {
      if i > 0 { assert r[i] == merged[i - 1]; }
      if i == 1 { assert merged[0][0] == tail[0][0]; }
    }
    assert r[1..] == merged && t[1..] == tail;
    CamelTailOf(merged);
    CamelTailOf(tail);
    assert merged[0][0] == tail[0][0];
  }

  lemma RestOfSum(c: char, a: string, b: string)
    requires a != ""
    ensures (a + b)[1..] == a[1..] + b
    ensures [c] + a[1..] + b == [c] + (a + b)[1..]
  {
  }

  lemma {:induction false} CamelTailOf(segs: seq<string>)
    requires Segments(segs) && StartsLower(segs[0])
    ensures Camel(segs) != "" && CamelTail(segs) == [UpperChar(segs[0][0])] + Camel(segs)[1..]
  {
    RestOfSum(UpperChar(segs[0][0]), segs[0], CamelTail(segs[1..]));
  }

  // A field's segments: every capital starts one.
  function Uncamel(s: string): (r: seq<string>)
    ensures r != []
  {
    if s == "" then [""]
    else
      var r := Uncamel(s[1..]);
      if IsUpper(s[0]) then [""] + [[LowerChar(s[0])] + r[0]] + r[1..] else [[s[0]] + r[0]] + r[1..]
  }

  lemma {:induction false} UncamelSegment(p: string, rest: string)
    requires forall i :: 0 <= i < |p| ==> FlagChar(p[i])
    ensures Uncamel(p + rest) == [p + Uncamel(rest)[0]] + Uncamel(rest)[1..]
  {
    if p == "" {
      assert p + rest == rest && p + Uncamel(rest)[0] == Uncamel(rest)[0];
      assert [Uncamel(rest)[0]] + Uncamel(rest)[1..] == Uncamel(rest);
    } else {
      assert (p + rest)[1..] == p[1..] + rest;
      UncamelSegment(p[1..], rest);
      assert FlagChar(p[0]);
      assert [p[0]] + (p[1..] + Uncamel(rest)[0]) == p + Uncamel(rest)[0];
    }
  }

  lemma {:induction false} UncamelCapital(c: char, rest: string)
    requires IsLower(c)
    ensures Uncamel([UpperChar(c)] + rest) == ["", [c] + Uncamel(rest)[0]] + Uncamel(rest)[1..]
  {
    var s := [UpperChar(c)] + rest;
    assert s[1..] == rest && IsUpper(s[0]) && LowerChar(s[0]) == c;
  }

  lemma Prepended(c: char, q: string, r: seq<string>, x: seq<string>)
    requires r != [] && x == [q + r[0]] + r[1..]
    ensures ["", [c] + x[0]] + x[1..] == ["", [c] + q + r[0]] + r[1..]
  {
    assert [c] + (q + r[0]) == [c] + q + r[0];
  }

  lemma {:induction false} UncamelCapitalized(p: string, rest: string)
    requires Segment(p) && StartsLower(p)
    ensures Uncamel(Capitalize(p) + rest) == ["", p + Uncamel(rest)[0]] + Uncamel(rest)[1..]
  {
    var c, q := p[0], p[1..];
    assert [c] + q == p;
    assert Capitalize(p) + rest == [UpperChar(c)] + (q + rest);
    UncamelCapital(c, q + rest);
    UncamelSegment(q, rest);
    Prepended(c, q, Uncamel(rest), Uncamel(q + rest));
  }

  lemma FirstOfTail(p: string, r: seq<string>, t: seq<string>)
    requires r == [""] + t
    ensures ["", p + r[0]] + r[1..] == [""] + ([p] + t)
  {
    assert p + "" == p;
  }

  lemma {:induction false} UncamelTail(tail: seq<string>)
    requires forall i :: 0 <= i < |tail| ==> Segment(tail[i]) && StartsLower(tail[i])
    ensures Uncamel(CamelTail(tail)) == [""] + tail
  {
    if tail == [] {
      assert [""] + tail == [""];
    } else {
      var p, rest := tail[0], tail[1..];
      assert forall i :: 0 <= i < |rest| ==> rest[i] == tail[i + 1];
      UncamelTail(rest);
      UncamelCapitalized(p, CamelTail(rest));
      FirstOfTail(p, Uncamel(CamelTail(rest)), rest);
      assert [p] + rest == tail;
    }
  }

  // Merged segments can be read off the field.
  lemma UncamelCamel(segs: seq<string>)
    requires Merged(segs)
    ensures Uncamel(Camel(segs)) == segs
  {
    var tail := segs[1..];
    assert forall i :: 0 <= i < |tail| ==> tail[i] == segs[i + 1];
    UncamelTail(tail);
    assert Segment(segs[0]);
    UncamelSegment(segs[0], CamelTail(tail));
    assert segs[0] + "" == segs[0] && [segs[0]] + tail == segs;
  }

  // Two flags of one driver share a field exactly if they agree once every segment that starts
  // with a digit is joined to the one before it.
  lemma {:induction false} FieldsShared(driver: string, a: seq<string>, b: seq<string>)
    requires '-' !in driver && Segments(a) && Segments(b)
    ensures CamelCase(Flag(driver, a)) == CamelCase(Flag(driver, b)) <==> Merge(a) == Merge(b)
  {
    CamelCaseOfFlag(driver, a);
    CamelCaseOfFlag(driver, b);
    MergeKeeps(a);
    MergeKeeps(b);
    UncamelCamel(Merge(a));
    UncamelCamel(Merge(b));
  }

  // Nothing is joined where every segment after the first starts with a letter.
  lemma {:induction false} MergeNothing(segs: seq<string>)
    requires Merged(segs)
    ensures Merge(segs) == segs
    decreases |segs|
  {
    if |segs| > 1 {
      SegmentsTail(segs);
      assert forall i :: 0 <= i < |segs| - 1 ==> segs[1..][i] == segs[i + 1];
      MergeNothing(segs[1..]);
      assert segs == [segs[0]] + segs[1..];
    }
  }

  // So different flags of that kind have different fields.
  lemma FieldsDistinct(driver: string, a: seq<string>, b: seq<string>)
    requires '-' !in driver && Merged(a) && Merged(b)
    requires CamelCase(Flag(driver, a)) == CamelCase(Flag(driver, b))
    ensures a == b
  {
    FieldsShared(driver, a, b);
    MergeNothing(a);
    MergeNothing(b);
  }

  // Two different flags with one field.
  lemma FieldsCollide()
    ensures CamelCase(Flag("d", ["a", "1b"])) == CamelCase(Flag("d", ["a1b"]))
    ensures Flag("d", ["a", "1b"]) != Flag("d", ["a1b"])
  {
    var two, one := ["a", "1b"], ["a1b"];
    assert forall i :: 0 <= i < |two| ==> Segment(two[i]);
    CamelCaseOfFlag("d", two);
    CamelCaseOfFlag("d", one);
    assert two[1..] == ["1b"] && ["1b"][1..] == [] && one[1..] == [];
    var last := ["1b"];
    assert CamelTail(last) == Capitalize(last[0]) + CamelTail(last[1..]);
    assert Capitalize("1b") == "1b";
    assert Camel(two) == "a1b" == Camel(one);
    JoinDashed(two);
    JoinDashed(one);
  }

  // ---------- the field table of a driver ----------

  datatype FlagKind = StringFlag | IntFlag | BoolFlag | StringSliceFlag | OtherFlag

  datatype FlagDecl = FlagDecl(name: string, kind: FlagKind)

  // flagToField: the field's name and type.
  function FlagToField(flag: FlagDecl): Result<(string, string)> {
    match CamelCase(flag.name)
    case Err => Err
    case Panic => Panic
    case Ok(name) =>
      match flag.kind
      case StringFlag => Ok((name, "string"))
      case IntFlag => Ok((name, "string"))
      case BoolFlag => Ok((name, "boolean"))
      case StringSliceFlag => Ok((name, "array[string]"))
      case OtherFlag => Err
  }

  // The resourceFields of GenerateAndUploadSchema; the first flag that fails decides the error.
  function FieldTable(flags: seq<FlagDecl>): Result<map<string, string>>
    decreases |flags|
  {
    if flags == [] then Ok(map[])
    else
      match FieldTable(flags[..|flags| - 1])
      case Err => Err
      case Panic => Panic
      case Ok(table) =>
        match FlagToField(flags[|flags| - 1])
        case Err => Err
        case Panic => Panic
        case Ok(field) => Ok(table[field.0 := field.1])
  }

  method ResourceFields(flags: seq<FlagDecl>) returns (r: Result<map<string, string>>)
    ensures r == FieldTable(flags)
  {
    var resourceFields: map<string, string> := map[];
    for i := 0 to |flags|
      invariant FieldTable(flags[..i]) == Ok(resourceFields)
    {
      assert flags[..i + 1][..i] == flags[..i];
      match FlagToField(flags[i]) {
        case Ok(field) => resourceFields := resourceFields[field.0 := field.1];
        case Err =>
          TableFails(flags, i + 1);
          return Err;
        case Panic =>
          TableFails(flags, i + 1);
          return Panic;
      }
    }
    assert flags[..|flags|] == flags;
    return Ok(resourceFields);
  }

  lemma {:induction false} TableFails(flags: seq<FlagDecl>, i: nat)
    requires i <= |flags| && !FieldTable(flags[..i]).Ok?
    ensures FieldTable(flags) == FieldTable(flags[..i])
    decreases |flags| - i
  {
    if i < |flags| {
      assert flags[..i + 1][..i] == flags[..i];
      TableFails(flags, i + 1);
    } else {
      assert flags[..i] == flags;
    }
  }

  // The table fails with the first flag whose name or kind does: one that has no hyphen or is of
  // an unknown kind gives an error, one with an empty part after the second hyphen a panic.
  lemma {:induction false} FirstFailure(flags: seq<FlagDecl>, i: nat)
    requires i < |flags|
    requires forall j :: 0 <= j < i ==> CamelCase(flags[j].name).Ok? && !flags[j].kind.OtherFlag?
    requires !CamelCase(flags[i].name).Ok? || flags[i].kind.OtherFlag?
    ensures FieldTable(flags) == if CamelCase(flags[i].name).Panic? then Panic else Err
  {
    FieldsUntil(flags, i);
    TableNext(flags, i);
    FlagFails(flags[i]);
    TableFails(flags, i + 1);
  }

  lemma TableNext(flags: seq<FlagDecl>, i: nat)
    requires i < |flags| && FieldTable(flags[..i]).Ok? && !FlagToField(flags[i]).Ok?
    ensures FieldTable(flags[..i + 1]).Panic? <==> FlagToField(flags[i]).Panic?
    ensures !FieldTable(flags[..i + 1]).Ok?
  {
    assert flags[..i + 1][..i] == flags[..i];
  }

  lemma FlagFails(flag: FlagDecl)
    requires !CamelCase(flag.name).Ok? || flag.kind.OtherFlag?
    ensures !FlagToField(flag).Ok? && (FlagToField(flag).Panic? <==> CamelCase(flag.name).Panic?)
  {
  }

  lemma {:induction false} FieldsUntil(flags: seq<FlagDecl>, n: nat)
    requires n <= |flags|
    requires forall j :: 0 <= j < n ==> CamelCase(flags[j].name).Ok? && !flags[j].kind.OtherFlag?
    ensures FieldTable(flags[..n]).Ok?
  {
    if n > 0 {
      FieldsUntil(flags, n - 1);
      assert flags[..n][..n - 1] == flags[..n - 1];
    }
  }

  // A name that is a driver and parts, all joined by hyphens, fails exactly if one of the parts
  // after the first is empty; one without a hyphen is an error.
  lemma {:induction false} CamelCaseCases(name: string, driver: string, parts: seq<string>)
    requires '-' !in driver && parts != [] && forall p :: p in parts ==> '-' !in p
    ensures name == driver + "-" + JoinWith(parts, '-') ==>
              CamelCase(name) == if exists k :: 1 <= k < |parts| && parts[k] == "" then Panic
                                 else Ok(parts[0] + CamelTail(parts[1..]))
    ensures '-' !in name ==> CamelCase(name) == Err
  {
    if name == driver + "-" + JoinWith(parts, '-') {
      IndexOfAppend(driver, JoinWith(parts, '-'), '-');
      assert name == driver + ['-'] + JoinWith(parts, '-');
      assert name[|driver| + 1..] == JoinWith(parts, '-');
      SplitJoin(parts, '-');
    }
  }

  // The flags of one driver.
  ghost predicate DriverFlags(driver: string, segs: seq<seq<string>>, flags: seq<FlagDecl>) {
    && '-' !in driver
    && |segs| == |flags|
    && (forall i :: 0 <= i < |flags| ==> Segments(segs[i]))
    && (forall i :: 0 <= i < |flags| ==> flags[i].name == Flag(driver, segs[i]) && !flags[i].kind.OtherFlag?)
  }

  function Entered(entries: seq<(string, string)>): map<string, string> {
    if entries == [] then map[]
    else
      var n := |entries| - 1;
      Entered(entries[..n])[entries[n].0 := entries[n].1]
  }

  lemma {:induction false} FieldTableEntered(flags: seq<FlagDecl>, entries: seq<(string, string)>, n: nat)
    requires n <= |flags| == |entries|
    requires forall i :: 0 <= i < |flags| ==> FlagToField(flags[i]) == Ok(entries[i])
    ensures FieldTable(flags[..n]) == Ok(Entered(entries[..n]))
  {
    if n > 0 {
      FieldTableEntered(flags, entries, n - 1);
      assert flags[..n][..n - 1] == flags[..n - 1] && entries[..n][..n - 1] == entries[..n - 1];
    }
  }

  // Each field has the type of its last flag.
  lemma {:induction false} EnteredFields(entries: seq<(string, string)>)
    ensures Entered(entries).Keys == set e | e in entries :: e.0
    ensures forall i :: 0 <= i < |entries| && (forall j :: i < j < |entries| ==> entries[j].0 != entries[i].0) ==>
              Entered(entries)[entries[i].0] == entries[i].1
  {
    if entries != [] {
      var n := |entries| - 1;
      var front := entries[..n];
      EnteredFields(front);
      assert entries == front + [entries[n]];
      forall i | 0 <= i < |entries| && (forall j :: i < j < |entries| ==> entries[j].0 != entries[i].0)
        ensures entries[i].0 in Entered(entries) && Entered(entries)[entries[i].0] == entries[i].1
      {
        if i < n {
          assert front[i] == entries[i] && entries[n].0 != entries[i].0;
          forall j | i < j < n ensures front[j].0 != front[i].0 { assert entries[j] == front[j]; }
        }
      }
    }
  }

  function Members<T>(s: seq<T>): set<T> {
    set x | x in s
  }

  lemma MembersSnoc<T>(s: seq<T>, n: nat)
    requires n < |s|
    ensures |Members(s[..n + 1])| == |Members(s[..n])| + (if s[n] in s[..n] then 0 else 1)
  {
    assert s[..n + 1] == s[..n] + [s[n]];
    assert Members(s[..n + 1]) == Members(s[..n]) + {s[n]};
    if s[n] in s[..n] {
      assert Members(s[..n]) + {s[n]} == Members(s[..n]);
    }
  }

  // Two lists with the same repetitions have as many different elements.
  lemma Repeats<S, T>(a: seq<S>, b: seq<T>, n: nat)
    requires n < |a| == |b|
    requires forall i :: 0 <= i < n ==> (a[i] == a[n] <==> b[i] == b[n])
    ensures a[n] in a[..n] ==> b[n] in b[..n]
  {
    if a[n] in a[..n] {
      var i :| 0 <= i < n && a[i] == a[n];
      assert b[..n][i] == b[n];
    }
  }

  lemma {:induction false} SameCount<S, T>(a: seq<S>, b: seq<T>, n: nat)
    requires n <= |a| == |b|
    requires forall i, j :: 0 <= i < |a| && 0 <= j < |a| ==> (a[i] == a[j] <==> b[i] == b[j])
    ensures |Members(a[..n])| == |Members(b[..n])|
  {
    if n > 0 {
      SameCount(a, b, n - 1);
      MembersSnoc(a, n - 1);
      MembersSnoc(b, n - 1);
      Repeats(a, b, n - 1);
      Repeats(b, a, n - 1);
    }
  }

  ghost predicate AllDistinct<T>(s: seq<T>, n: nat)
    requires n <= |s|
  {
    forall i, j :: 0 <= i < j < n ==> s[i] != s[j]
  }

  lemma DistinctSnoc<T>(s: seq<T>, n: nat)
    requires n < |s|
    ensures AllDistinct(s, n + 1) <==> AllDistinct(s, n) && s[n] !in s[..n]
  {
    if s[n] in s[..n] {
      var i :| 0 <= i < n && s[i] == s[n];
    } else {
      forall i | 0 <= i < n ensures s[i] != s[n] {
        assert s[..n][i] == s[i];
      }
    }
  }

  lemma {:induction false} CountDistinct<T>(s: seq<T>, n: nat)
    requires n <= |s|
    ensures |Members(s[..n])| <= n
    ensures |Members(s[..n])| == n <==> AllDistinct(s, n)
  {
    if n > 0 {
      CountDistinct(s, n - 1);
      MembersSnoc(s, n - 1);
      DistinctSnoc(s, n - 1);
    }
  }

  lemma FlagHasField(driver: string, segs: seq<string>, flag: FlagDecl)
    requires '-' !in driver && Segments(segs)
    requires flag.name == Flag(driver, segs) && !flag.kind.OtherFlag?
    ensures FlagToField(flag).Ok? && CamelCase(flag.name) == Ok(FlagToField(flag).value.0)
    ensures FlagOf(driver, FlagToField(flag).value.0) == flag.name <==> Recoverable(segs)
  {
    CamelCaseOfFlag(driver, segs);
    FlagRoundTrip(driver, segs);
  }

  function Merges(segs: seq<seq<string>>): seq<seq<string>> {
    seq(|segs|, i requires 0 <= i < |segs| => Merge(segs[i]))
  }

  lemma EntriesShare(driver: string, segs: seq<seq<string>>, flags: seq<FlagDecl>, entries: seq<(string, string)>)
    requires DriverFlags(driver, segs, flags) && |entries| == |flags|
    requires forall i :: 0 <= i < |flags| ==> FlagToField(flags[i]) == Ok(entries[i])
    ensures forall i, j :: 0 <= i < |flags| && 0 <= j < |flags| ==>
              (entries[i].0 == entries[j].0 <==> Merges(segs)[i] == Merges(segs)[j])
  {
    forall i, j | 0 <= i < |flags| && 0 <= j < |flags|
      ensures entries[i].0 == entries[j].0 <==> Merges(segs)[i] == Merges(segs)[j]
    {
      FlagHasField(driver, segs[i], flags[i]);
      FlagHasField(driver, segs[j], flags[j]);
      FieldsShared(driver, segs[i], segs[j]);
    }
  }

  lemma EntriesOf(driver: string, segs: seq<seq<string>>, flags: seq<FlagDecl>) returns (entries: seq<(string, string)>)
    requires DriverFlags(driver, segs, flags)
    ensures |entries| == |flags| && forall i :: 0 <= i < |flags| ==> FlagToField(flags[i]) == Ok(entries[i])
    ensures FieldTable(flags) == Ok(Entered(entries))
  {
    forall i | 0 <= i < |flags| ensures FlagToField(flags[i]).Ok? {
      FlagHasField(driver, segs[i], flags[i]);
    }
    entries := seq(|flags|, i requires 0 <= i < |flags| => FlagToField(flags[i]).value);
    FieldTableEntered(flags, entries, |flags|);
    assert flags[..|flags|] == flags && entries[..|flags|] == entries;
  }

  // The table of a driver's flags has one field for each different list of merged segments.
  lemma {:induction false} FieldsCounted(driver: string, segs: seq<seq<string>>, flags: seq<FlagDecl>)
    requires DriverFlags(driver, segs, flags)
    ensures FieldTable(flags).Ok? && |FieldTable(flags).value| == |Members(Merges(segs))|
  {
    var entries := EntriesOf(driver, segs, flags);
    EntriesShare(driver, segs, flags, entries);
    CountEntries(entries, Merges(segs));
  }

  lemma MergesDiffer(segs: seq<seq<string>>)
    ensures |Members(Merges(segs))| == |segs| <==>
              forall i, j :: 0 <= i < j < |segs| ==> Merge(segs[i]) != Merge(segs[j])
  {
    var merges := Merges(segs);
    CountDistinct(merges, |segs|);
    assert merges[..|segs|] == merges;
    assert forall i :: 0 <= i < |segs| ==> merges[i] == Merge(segs[i]);
  }

  // So no flag is lost exactly if these lists are all different.
  lemma {:induction false} NoFlagLost(driver: string, segs: seq<seq<string>>, flags: seq<FlagDecl>)
    requires DriverFlags(driver, segs, flags)
    ensures FieldTable(flags).Ok?
    ensures |FieldTable(flags).value| == |flags| <==>
              forall i, j :: 0 <= i < j < |segs| ==> Merge(segs[i]) != Merge(segs[j])
  {
    FieldsCounted(driver, segs, flags);
    MergesDiffer(segs);
  }

  lemma {:induction false} CountEntries<S>(entries: seq<(string, string)>, merges: seq<S>)
    requires |merges| == |entries|
    requires forall i, j :: 0 <= i < |entries| && 0 <= j < |entries| ==>
               (entries[i].0 == entries[j].0 <==> merges[i] == merges[j])
    ensures |Entered(entries)| == |Members(merges)|
  {
    var names := seq(|entries|, i requires 0 <= i < |entries| => entries[i].0);
    EnteredFields(entries);
    SameCount(names, merges, |entries|);
    assert names[..|entries|] == names && merges[..|entries|] == merges;
    FieldNames(entries, names);
    assert |Entered(entries)| == |Entered(entries).Keys|;
  }

  lemma FieldNames(entries: seq<(string, string)>, names: seq<string>)
    requires |names| == |entries| && forall i :: 0 <= i < |entries| ==> names[i] == entries[i].0
    ensures (set e | e in entries :: e.0) == Members(names)
  {
    forall f | f in Members(names) ensures f in (set e | e in entries :: e.0) {
      var i :| 0 <= i < |names| && names[i] == f;
      assert entries[i] in entries;
    }
    forall e | e in entries ensures e.0 in Members(names) {
      var i :| 0 <= i < |entries| && entries[i] == e;
      assert names[i] in names;
    }
  }

  // Every flag has its field in the table, with its own type unless a later flag shares the
  // field; and it can be read off the field exactly if it is recoverable.
  lemma {:induction false} FlagInTable(driver: string, segs: seq<seq<string>>, flags: seq<FlagDecl>, i: nat)
    requires DriverFlags(driver, segs, flags) && i < |flags|
    ensures FieldTable(flags).Ok? && FlagToField(flags[i]).Ok?
    ensures var (field, kind) := FlagToField(flags[i]).value;
            && field in FieldTable(flags).value
            && kind == (match flags[i].kind
                        case BoolFlag => "boolean"
                        case StringSliceFlag => "array[string]"
                        case _ => "string")
            && ((forall j :: i < j < |flags| ==> Merge(segs[j]) != Merge(segs[i])) ==>
                  FieldTable(flags).value[field] == kind)
            && (FlagOf(driver, field) == flags[i].name <==> Recoverable(segs[i]))
  {
    var entries := EntriesOf(driver, segs, flags);
    EntriesShare(driver, segs, flags, entries);
    EnteredFields(entries);
    FlagHasField(driver, segs[i], flags[i]);
    assert entries[i] in entries;
    forall j | i < j < |flags| && Merge(segs[j]) != Merge(segs[i]) ensures entries[j].0 != entries[i].0 {
      assert Merges(segs)[j] == Merge(segs[j]) && Merges(segs)[i] == Merge(segs[i]);
    }
  }
}
