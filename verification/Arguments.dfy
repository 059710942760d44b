/**
 The arguments of a new process in os/process.c: process_create joins them in one buffer, and
 ProcessFork finds them again with get_argument, which reads at most about a hundred characters.
 */
module Arguments {
  import opened Common

  const ALLARGS := 1000

  /** The arguments one after the other, each with its terminator. */
  function Packed(args: seq<seq<char>>): seq<char> {
    if args == [] then [] else Packed(args[..|args| - 1]) + args[|args| - 1] + [NUL]
  }

  /** Where argument `i` starts. */
  function Start(args: seq<seq<char>>, i: nat): nat
    requires i <= |args|
  {
    |Packed(args[..i])|
  }

  ghost predicate Strings(args: seq<seq<char>>) {
    forall i :: 0 <= i < |args| ==> NUL !in args[i]
  }

  /** A buffer as process_create leaves it; what lies behind the two zeros is left over. */
  ghost predicate Holds(buf: seq<char>, args: seq<seq<char>>) {
    var k := |Packed(args)|;
    k + 2 <= |buf| == ALLARGS && buf[..k] == Packed(args) && buf[k] == NUL && buf[k + 1] == NUL
  }

  lemma PackedStep(args: seq<seq<char>>, i: nat)
    requires i < |args|
    ensures Packed(args[..i + 1]) == Packed(args[..i]) + args[i] + [NUL]
    ensures Start(args, i + 1) == Start(args, i) + |args[i]| + 1
  {
    assert args[..i + 1][..i] == args[..i];
  }

  lemma {:induction false} PackedPrefix(args: seq<seq<char>>, i: nat)
    requires i <= |args|
    ensures Start(args, i) <= |Packed(args)| && Packed(args)[..Start(args, i)] == Packed(args[..i])
    decreases |args| - i
  {
    if i < |args| {
      PackedStep(args, i);
      PackedPrefix(args, i + 1);
      var p := Packed(args)[..Start(args, i + 1)];
      assert p[..Start(args, i)] == Packed(args)[..Start(args, i)];
    } else {
      assert args[..i] == args;
    }
  }

  /** The middle of three joined parts, in a buffer that begins with them. */
  lemma MiddlePart(buf: seq<char>, front: seq<char>, arg: seq<char>)
    requires |front| + |arg| < |buf| && buf[..|front| + |arg| + 1] == front + arg + [NUL]
    ensures buf[|front|..|front| + |arg|] == arg && buf[|front| + |arg|] == NUL
  {
    var all := front + arg + [NUL];
    assert all[|front|..|front| + |arg|] == arg && all[|front| + |arg|] == NUL;
    assert buf[|front|..|front| + |arg|] == all[|front|..|front| + |arg|];
    assert buf[|front| + |arg|] == all[|front| + |arg|];
  }

  lemma BufferBegins(buf: seq<char>, args: seq<seq<char>>, i: nat)
    requires Holds(buf, args) && i < |args|
    ensures Start(args, i) + |args[i]| < |buf|
    ensures buf[..Start(args, i) + |args[i]| + 1] == Packed(args[..i]) + args[i] + [NUL]
  {
    PackedStep(args, i);
    PackedPrefix(args, i + 1);
    assert buf[..|Packed(args)|][..Start(args, i + 1)] == buf[..Start(args, i + 1)];
  }

  /** Argument `i` as the buffer shows it. */
  lemma ArgumentAt(buf: seq<char>, args: seq<seq<char>>, i: nat)
    requires Holds(buf, args) && i < |args|
    ensures Start(args, i) + |args[i]| < |buf|
    ensures buf[Start(args, i)..Start(args, i) + |args[i]|] == args[i] && buf[Start(args, i) + |args[i]|] == NUL
  {
    BufferBegins(buf, args, i);
    MiddlePart(buf, Packed(args[..i]), args[i]);
  }

  /** process_create: the buffer must be large enough, which the code does not check. */
  method PackArguments(args: seq<seq<char>>, allargs: array<char>)
    requires allargs.Length == ALLARGS && |Packed(args)| + 2 <= ALLARGS && Strings(args)
    modifies allargs
    ensures Holds(allargs[..], args)
  {
    var k := 0;
    var i := 0;
    while i < |args|
      invariant 0 <= i <= |args|
      invariant k == Start(args, i) <= |Packed(args)| && allargs[..k] == Packed(args[..i])
    {
      PackedStep(args, i);
      PackedPrefix(args, i + 1);
      var j := 0;
      var c := 'x';
      while c != NUL
        invariant 0 <= j <= |args[i]| + 1 && (c == NUL <==> j == |args[i]| + 1)
        invariant k == Start(args, i) + j <= |Packed(args)|
        invariant allargs[..k] == Packed(args[..i]) + (args[i] + [NUL])[..j]
        decreases |args[i]| + 1 - j
      {
        c := if j < |args[i]| then args[i][j] else NUL;
        allargs[k] := c;
        j := j + 1;
        k := k + 1;
        assert (args[i] + [NUL])[..j] == (args[i] + [NUL])[..j - 1] + [c];
      }
      i := i + 1;
    }
    assert args[..i] == args;
    allargs[k] := NUL;
    allargs[k + 1] := NUL;
    assert allargs[..k] == Packed(args);
  }

  // ---- get_argument ----

  /** Where the scan over one argument stops. */
  function Scan(str: seq<char>, location: nat): (r: nat)
    requires |str| == ALLARGS && location <= 100
    ensures location <= r <= 100 && (location < 100 ==> location < r)
    decreases 100 - location
  {
    if location >= 100 then location
    else if str[location] == NUL then location + 1
    else Scan(str, location + 1)
  }

  predicate AtEnd(str: seq<char>, location: nat)
    requires |str| == ALLARGS && location <= 100
  {
    str[location] == NUL || location >= 99
  }

  /** What calls of get_argument return, from `location` on, before they return zero. */
  function Offsets(str: seq<char>, location: nat): seq<nat>
    requires |str| == ALLARGS && location <= 100
    decreases 100 - location
  {
    if AtEnd(str, location) then [] else [location] + Offsets(str, Scan(str, location))
  }

  /** Where the first call leaves the location. */
  function AfterFirst(str: seq<char>): (r: nat)
    requires |str| == ALLARGS
    ensures r <= 100
  {
    if AtEnd(str, 0) then 0 else Scan(str, 0)
  }

  /** The scan stops behind the terminator, or at 100. */
  lemma {:induction false} ScanStops(str: seq<char>, location: nat, z: nat)
    requires |str| == ALLARGS && location < 100 && location <= z < |str|
    requires NUL !in str[location..z] && str[z] == NUL
    ensures Scan(str, location) == if z < 100 then z + 1 else 100
    decreases z - location
  {
    if location < z {
      assert str[location] == str[location..z][0] != NUL;
      assert str[location + 1..z] == str[location..z][1..];
      if location + 1 < 100 { ScanStops(str, location + 1, z); }
    }
  }

  /** The starts of the arguments from number `i` up to number `j`. */
  function Starts(args: seq<seq<char>>, i: nat, j: nat): (r: seq<nat>)
    requires i <= j <= |args|
    ensures |r| == j - i
    ensures forall h :: 0 <= h < |r| ==> r[h] == Start(args, i + h)
    decreases j - i
  {
    if i == j then [] else [Start(args, i)] + Starts(args, i + 1, j)
  }

  /** From the start of an argument on, what is returned are the starts of arguments, in order and without gap. */
  lemma {:induction false} OffsetsAreStarts(buf: seq<char>, args: seq<seq<char>>, i: nat) returns (j: nat)
    requires Holds(buf, args) && Strings(args) && i <= |args| && Start(args, i) <= 100
    ensures i <= j <= |args| && Offsets(buf, Start(args, i)) == Starts(args, i, j)
    ensures j < |args| ==> Start(args, j) >= 99 || args[j] == []
    decreases |args| - i
  {
    j := i;
    if i < |args| && !AtEnd(buf, Start(args, i)) {
      NextStart(buf, args, i);
      if Start(args, i + 1) <= 100 {
        j := OffsetsAreStarts(buf, args, i + 1);
      } else {
        j := i + 1;
      }
    } else if i == |args| {
      assert args[..i] == args;
    } else {
      EmptyAt(buf, args, i);
    }
  }

  /** An argument is empty exactly when its place holds the terminator. */
  lemma EmptyAt(buf: seq<char>, args: seq<seq<char>>, i: nat)
    requires Holds(buf, args) && Strings(args) && i < |args|
    ensures Start(args, i) < |buf| && (buf[Start(args, i)] == NUL <==> args[i] == [])
  {
    ArgumentAt(buf, args, i);
    if args[i] != [] { assert buf[Start(args, i)] == args[i][0]; }
  }

  lemma NextStart(buf: seq<char>, args: seq<seq<char>>, i: nat)
    requires Holds(buf, args) && Strings(args) && i < |args| && Start(args, i) < 100
    ensures Scan(buf, Start(args, i)) == if Start(args, i + 1) <= 100 then Start(args, i + 1) else 100
  {
    ArgumentAt(buf, args, i);
    PackedStep(args, i);
    ScanStops(buf, Start(args, i), Start(args, i) + |args[i]|);
  }

  /** Every argument can be found: none is empty and the last one starts before position 99; a single one always can. */
  predicate AllFound(args: seq<seq<char>>) {
    |args| == 1 || (|args| > 1 && (forall i :: 0 <= i < |args| ==> args[i] != []) && Start(args, |args| - 1) < 99)
  }

  /** Nothing is returned at the end of the string or behind position 98. */
  lemma {:induction false} OffsetsAreOpen(str: seq<char>, location: nat)
    requires |str| == ALLARGS && location <= 100
    ensures forall o :: o in Offsets(str, location) ==> o <= 100 && !AtEnd(str, o)
    decreases 100 - location
  {
    if !AtEnd(str, location) { OffsetsAreOpen(str, Scan(str, location)); }
  }

  lemma {:induction false} StartsGrow(args: seq<seq<char>>, i: nat, j: nat)
    requires i <= j <= |args|
    ensures Start(args, i) <= Start(args, j)
    decreases j
  {
    if i < j {
      PackedStep(args, j - 1);
      StartsGrow(args, i, j - 1);
    }
  }

  /**
   The calls after the first return the starts of the second argument and of those that follow it,
   in order and without gap; and they find all of them exactly when AllFound says so. Then argc is
   the number of arguments packed.
   */
  lemma ArgumentsFound(buf: seq<char>, args: seq<seq<char>>) returns (j: nat)
    requires Holds(buf, args) && Strings(args) && args != []
    ensures 1 <= j <= |args| && Offsets(buf, AfterFirst(buf)) == Starts(args, 1, j)
    ensures j == |args| <==> AllFound(args)
  {
    j := 1;
    EmptyAt(buf, args, 0);
    if args[0] != [] {
      NextStart(buf, args, 0);
      if Start(args, 1) <= 100 { j := OffsetsAreStarts(buf, args, 1); }
      if j == |args| {
        AllAreOpen(buf, args);
      } else if AllFound(args) {
        StartsGrow(args, j, |args| - 1);
      }
    }
  }

  lemma AllAreOpen(buf: seq<char>, args: seq<seq<char>>)
    requires Holds(buf, args) && Strings(args) && args != [] && args[0] != []
    requires Offsets(buf, AfterFirst(buf)) == Starts(args, 1, |args|)
    ensures AllFound(args)
  {
    var found := Offsets(buf, AfterFirst(buf));
    OffsetsAreOpen(buf, AfterFirst(buf));
    forall i | 1 <= i < |args|
      ensures args[i] != [] && Start(args, i) < 99
    {
      assert found[i - 1] == Start(args, i) && found[i - 1] in found;
      EmptyAt(buf, args, i);
    }
  }

  /** get_argument with its two static variables. */
  class ArgumentReader {
    var str: seq<char>
    var location: nat

    ghost predicate Valid()
      reads this
    {
      |str| == ALLARGS && location <= 100
    }

    constructor (buf: seq<char>)
      requires |buf| == ALLARGS
      ensures Valid() && str == buf && location == 0
    {
      str, location := buf, 0;
    }

    method GetArgument(s: Option<seq<char>>) returns (offset: nat)
      requires Valid() && (s.Some? ==> |s.value| == ALLARGS)
      modifies this
      ensures Valid() && str == if s.Some? then s.value else old(str)
      ensures var l := if s.Some? then 0 else old(location);
              if AtEnd(str, l) then offset == 0 && location == l
              else offset == l && location == Scan(str, l)
    {
      if s.Some? {
        str := s.value;
        location := 0;
      }
      var location2 := location;
      if str[location] == NUL || location >= 99 {
        return 0;
      }
      while location < 100
        invariant location2 <= location <= 100 && str == if s.Some? then s.value else old(str)
        invariant Scan(str, location2) == Scan(str, location)
        decreases 100 - location
      {
        if str[location] == NUL {
          location := location + 1;
          return location2;
        }
        location := location + 1;
      }
      return location2;
    }

    /** The loop of ProcessFork that fills in the argument vector; `offsets` is that vector relative to the stack. */
    method ArgumentVector(param: seq<char>) returns (argc: nat, offsets: seq<nat>)
      requires Valid() && |param| == ALLARGS
      modifies this
      ensures argc == 1 + |Offsets(param, AfterFirst(param))|
      ensures offsets == [0] + Offsets(param, AfterFirst(param)) + [0]
    {
      var offset := GetArgument(Some(param));
      offsets := [offset];
      var count := 3;
      offset := GetArgument(None);
      offsets := offsets + [offset];
      while offset != 0
        invariant Valid() && str == param && |offsets| == count - 1 && count >= 3
        invariant offset == 0 || location > 0
        invariant offset == 0 ==> offsets == [0] + Offsets(param, AfterFirst(param)) + [0]
        invariant offset != 0 ==> [0] + Offsets(param, AfterFirst(param)) == offsets + Offsets(param, location)
        decreases offset != 0, 100 - location
      {
        count := count + 1;
        offset := GetArgument(None);
        offsets := offsets + [offset];
      }
      argc := count - 2;
    }
  }
}
