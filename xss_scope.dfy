/** Variable scopes (XSS/Scope.cs). A scope is a dictionary with an optional parent; seen
    from one scope, the chain is a sequence of dictionaries, innermost first. The functions
    over such sequences say what each operation does to the whole chain; the class `Scope` is
    the C# object, proved to agree with them. */
module XssScope {
  import opened XssValues

  /** A chain of dictionaries, innermost first. */
  type Frames = seq<map<string, Boxed>>

  /** Whether `x` is bound in none of the dictionaries. */
  predicate Unbound(frames: Frames, x: string)
  {
    forall j :: 0 <= j < |frames| ==> x !in frames[j]
  }

  /** Whether `k` is the innermost dictionary that binds `x`. */
  predicate NearestAt(frames: Frames, x: string, k: nat)
  {
    k < |frames| && x in frames[k] && forall j :: 0 <= j < k ==> x !in frames[j]
  }

  /** `Get(x)`: the value in the nearest dictionary that binds `x`, or null. */
  function Lookup(frames: Frames, x: string): (v: Boxed)
    ensures Unbound(frames, x) ==> v == BNull
    ensures forall k: nat :: NearestAt(frames, x, k) ==> v == frames[k][x]
  {
    LookupFrom(frames, x, 0)
  }

  /** The search of `Get` once the dictionaries before `i` are known not to bind `x`. */
  function LookupFrom(frames: Frames, x: string, i: nat): (v: Boxed)
    requires i <= |frames|
    ensures (forall j :: i <= j < |frames| ==> x !in frames[j]) ==> v == BNull
    ensures forall k :: i <= k < |frames| && x in frames[k] && (forall j :: i <= j < k ==> x !in frames[j]) ==> v == frames[k][x]
    decreases |frames| - i
  {
    if i == |frames| then BNull
    else if x in frames[i] then frames[i][x]
    else LookupFrom(frames, x, i + 1)
  }

  /** `Contain(x, localOnly)`: only the innermost dictionary is looked at. */
  function BoundLocally(frames: Frames, x: string): (b: bool)
    requires |frames| > 0
    ensures b <==> NearestAt(frames, x, 0)
  {
    x in frames[0]
  }

  /** `Define(x, v)` on the innermost scope: a new binding, or nothing when `x` is bound there. */
  function Defined(frames: Frames, x: string, v: Boxed): (r: Frames)
    requires |frames| > 0
    ensures |r| == |frames| && forall j :: 0 < j < |frames| ==> r[j] == frames[j]
    ensures x in frames[0] ==> r == frames
    ensures x !in frames[0] ==> r[0] == frames[0][x := v]
  {
    if x in frames[0] then frames else frames[0 := frames[0][x := v]]
  }

  /** What `Define` returns: the stored value, or null when nothing was stored. */
  function DefineResult(frames: Frames, x: string, v: Boxed): Boxed
    requires |frames| > 0
  {
    if x in frames[0] then BNull else v
  }

  /** `Assign(x, v)`: the nearest binding of `x` is overwritten; with none, nothing changes. */
  function Assigned(frames: Frames, x: string, v: Boxed): (r: Frames)
    ensures |r| == |frames|
    ensures Unbound(frames, x) ==> r == frames
    ensures forall k: nat :: NearestAt(frames, x, k) ==> r == frames[k := frames[k][x := v]]
  {
    AssignedFrom(frames, x, v, 0)
  }

  /** The search of `Assign` once the dictionaries before `i` are known not to bind `x`. */
  function AssignedFrom(frames: Frames, x: string, v: Boxed, i: nat): (r: Frames)
    requires i <= |frames|
    ensures |r| == |frames|
    ensures (forall j :: i <= j < |frames| ==> x !in frames[j]) ==> r == frames
    ensures forall k :: i <= k < |frames| && x in frames[k] && (forall j :: i <= j < k ==> x !in frames[j]) ==> r == frames[k := frames[k][x := v]]
    decreases |frames| - i
  {
    if i == |frames| then frames
    else if x in frames[i] then frames[i := frames[i][x := v]]
    else AssignedFrom(frames, x, v, i + 1)
  }

  /** What `Assign` returns: the new value, or null when nothing binds `x`. */
  function AssignResult(frames: Frames, x: string, v: Boxed): Boxed
  {
    if Unbound(frames, x) then BNull else v
  }

  /** `x` is either unbound or has exactly one nearest binding. */
  lemma {:induction false} NearestExists(frames: Frames, x: string)
    ensures !Unbound(frames, x) ==> exists k: nat :: NearestAt(frames, x, k)
  {
    if frames != [] && !Unbound(frames, x) {
      if x !in frames[0] {
        assert !Unbound(frames[1..], x) by {
          var j :| 0 <= j < |frames| && x in frames[j];
          assert j > 0 && x in frames[1..][j - 1];
        }
        NearestExists(frames[1..], x);
        var k: nat :| NearestAt(frames[1..], x, k);
        assert NearestAt(frames, x, k + 1);
      } else {
        assert NearestAt(frames, x, 0);
      }
    }
  }

  /** A dictionary that does not bind `x`, put in front of a chain, changes nothing `Get`
      finds: the search goes on to the parent. */
  lemma LookupBelow(m: map<string, Boxed>, parent: Frames, x: string)
    requires x !in m
    ensures Lookup([m] + parent, x) == Lookup(parent, x)
  {
    NearestExists(parent, x);
    if !Unbound(parent, x) {
      var k: nat :| NearestAt(parent, x, k);
      assert NearestAt([m] + parent, x, k + 1);
    } else {
      assert Unbound([m] + parent, x);
    }
  }

  /** Likewise an assignment passes over such a dictionary to the parent chain. */
  lemma AssignedBelow(m: map<string, Boxed>, parent: Frames, x: string, v: Boxed)
    requires x !in m
    ensures Assigned([m] + parent, x, v) == [m] + Assigned(parent, x, v)
    ensures AssignResult([m] + parent, x, v) == AssignResult(parent, x, v)
  {
    NearestExists(parent, x);
    if !Unbound(parent, x) {
      var k: nat :| NearestAt(parent, x, k);
      assert NearestAt([m] + parent, x, k + 1);
      assert ([m] + parent)[k + 1 := parent[k][x := v]] == [m] + parent[k := parent[k][x := v]];
      assert !Unbound([m] + parent, x) by { assert x in ([m] + parent)[k + 1]; }
    } else {
      assert Unbound([m] + parent, x);
    }
  }

  /** After a definition that stored something, the name reads back as the value and is
      bound locally; other names read as before, and the outer scopes are untouched, so a
      definition in a child scope only shadows the parent's binding. */
  lemma DefineThenGet(frames: Frames, x: string, v: Boxed, y: string)
    requires |frames| > 0 && x !in frames[0]
    ensures Lookup(Defined(frames, x, v), x) == v && BoundLocally(Defined(frames, x, v), x)
    ensures DefineResult(frames, x, v) == v
    ensures y != x ==> Lookup(Defined(frames, x, v), y) == Lookup(frames, y)
    ensures forall j :: 0 < j < |frames| ==> Defined(frames, x, v)[j] == frames[j]
  {
    var r := Defined(frames, x, v);
    assert NearestAt(r, x, 0);
    if y != x {
      if y in frames[0] {
        assert NearestAt(r, y, 0) && NearestAt(frames, y, 0);
      } else {
        NearestExists(frames, y);
        if !Unbound(frames, y) {
          var k: nat :| NearestAt(frames, y, k);
          assert NearestAt(r, y, k);
        } else {
          assert Unbound(r, y);
        }
      }
    }
  }

  /** Defining a name that is bound locally changes nothing and returns null. */
  lemma DefineBoundIsNoOp(frames: Frames, x: string, v: Boxed)
    requires |frames| > 0 && x in frames[0]
    ensures Defined(frames, x, v) == frames && DefineResult(frames, x, v) == BNull
  {
  }

  /** After an assignment to a bound name, it reads back as the new value, every other name
      reads as before, and only the dictionary of the nearest binding has changed. */
  lemma AssignThenGet(frames: Frames, x: string, v: Boxed, y: string, k: nat)
    requires NearestAt(frames, x, k)
    ensures Lookup(Assigned(frames, x, v), x) == v && AssignResult(frames, x, v) == v
    ensures y != x ==> Lookup(Assigned(frames, x, v), y) == Lookup(frames, y)
    ensures forall j :: 0 <= j < |frames| && j != k ==> Assigned(frames, x, v)[j] == frames[j]
  {
    var r := Assigned(frames, x, v);
    assert NearestAt(r, x, k);
    if y != x {
      NearestExists(frames, y);
      if !Unbound(frames, y) {
        var m: nat :| NearestAt(frames, y, m);
        assert NearestAt(r, y, m);
      } else {
        assert Unbound(r, y);
      }
    }
  }

  /** Assigning a name nothing binds stores nothing and returns null. */
  lemma AssignUnboundIsNoOp(frames: Frames, x: string, v: Boxed)
    requires Unbound(frames, x)
    ensures Assigned(frames, x, v) == frames && AssignResult(frames, x, v) == BNull
  {
  }

  /** The C# scope object. `ancestors` lists the parent chain, nearest first; it lets the
      contracts name every dictionary a recursive call can read or change. */
  class Scope {
    var variables: map<string, Boxed>
    const parent: Scope?
    ghost const ancestors: seq<Scope>

    /** The parent chain is finite and has no repeated scope. */
    ghost predicate Chain()
      decreases |ancestors|
    {
      this !in ancestors
      && (parent == null ==> ancestors == [])
      && (parent != null ==> ancestors == [parent] + parent.ancestors && parent.Chain())
    }

    /** The chain of dictionaries seen from this scope. */
    ghost function Frames(): (f: Frames)
      requires Chain()
      reads this, set a | a in ancestors
      ensures |f| == |ancestors| + 1 && f[0] == variables
      decreases |ancestors|
    {
      if parent == null then [variables]
      else
        [variables] + parent.Frames()
    }

    /** `new Scope(parent)`: an empty dictionary below `parent`. */
    constructor (p: Scope?)
      requires p != null ==> p.Chain()
      ensures Chain() && parent == p && variables == map[]
      ensures Frames() == [map[]] + (if p == null then [] else p.Frames())
    {
      variables := map[];
      parent := p;
      ancestors := if p == null then [] else [p] + p.ancestors;
    }

    method Define(x: string, v: Boxed) returns (r: Boxed)
      requires Chain()
      modifies this
      ensures Chain()
      ensures Frames() == Defined(old(Frames()), x, v)
      ensures r == DefineResult(old(Frames()), x, v)
    {
      if x !in variables {
        variables := variables[x := v];
        r := v;
      } else {
        r := BNull;
      }
    }

    function Get(x: string): (v: Boxed)
      requires Chain()
      reads this, set a | a in ancestors
      ensures v == Lookup(Frames(), x)
      decreases |ancestors|
    {
      if x in variables then variables[x]
      else if parent != null then
        LookupBelow(variables, parent.Frames(), x);
        parent.Get(x)
      else BNull
    }

    method Assign(x: string, v: Boxed) returns (r: Boxed)
      requires Chain()
      modifies this, set a | a in ancestors
      ensures Chain()
      ensures Frames() == Assigned(old(Frames()), x, v)
      ensures r == AssignResult(old(Frames()), x, v)
      decreases |ancestors|
    {
      if x in variables {
        variables := variables[x := v];
        r := v;
        assert NearestAt(old(Frames()), x, 0);
      } else if parent != null {
        ghost var before := parent.Frames();
        r := parent.Assign(x, v);
        AssignedBelow(variables, before, x, v);
        assert !(x in old(Frames())[0]);
      } else {
        r := BNull;
        assert Unbound(old(Frames()), x);
      }
    }

    function Contain(x: string, localOnly: bool := true): (b: bool)
      requires Chain()
      reads this, set a | a in ancestors
      ensures b == BoundLocally(Frames(), x)
    {
      x in variables
    }
  }
}
