/**
 Scope chains. The resolver's symbol table (resolver/env.go) and the evaluator's environment
 (evaluator/env.go) have one shape: a mutable frame with a pointer to its parent. A chain is read as the
 sequence of its frames, innermost first.
 */
module Scopes {
  import opened Wrappers

  function Lookup<V>(frames: seq<map<string, V>>, name: string): Option<V> {
    if frames == [] then None
    else if name in frames[0] then Some(frames[0][name])
    else Lookup(frames[1..], name)
  }

  function SetHead<V>(frames: seq<map<string, V>>, name: string, value: V): seq<map<string, V>>
    requires frames != []
  {
    [frames[0][name := value]] + frames[1..]
  }

  /** Overwrites the innermost binding of the name; a name bound nowhere changes nothing. */
  function AssignIn<V>(frames: seq<map<string, V>>, name: string, value: V): (result: seq<map<string, V>>)
    ensures |result| == |frames|
  {
    if frames == [] then []
    else if name in frames[0] then SetHead(frames, name, value)
    else [frames[0]] + AssignIn(frames[1..], name, value)
  }

  /** The outermost frame. */
  function Top<V>(frames: seq<map<string, V>>): map<string, V>
    requires frames != []
  {
    frames[|frames| - 1]
  }

  class Env<V> {
    const parent: Env?<V>
    var values: map<string, V>
    ghost const chain: seq<Env<V>>

    ghost predicate Valid() {
      && chain != [] && chain[0] == this
      && forall i | 0 <= i < |chain| ::
           && chain[i].chain == chain[i..]
           && chain[i].parent == After(chain, i)
    }

    static ghost function After(chain: seq<Env<V>>, i: nat): Env?<V> {
      if i + 1 < |chain| then chain[i + 1] else null
    }

    ghost function Frames(): (frames: seq<map<string, V>>)
      reads chain
      ensures |frames| == |chain|
    {
      seq(|chain|, i requires 0 <= i < |chain| reads chain => chain[i].values)
    }

    constructor TopLevel(values: map<string, V>)
      ensures Valid() && chain == [this] && this.values == values && Frames() == [values]
    {
      this.parent := null;
      this.values := values;
      this.chain := [this];
    }

    constructor Enclosed(parent: Env<V>)
      requires parent.Valid()
      ensures Valid() && chain == [this] + parent.chain && values == map[]
      ensures Frames() == [map[]] + parent.Frames()
    {
      this.parent := parent;
      this.values := map[];
      this.chain := [this] + parent.chain;
      new;
      forall i | 0 < i < |chain|
        ensures chain[i].chain == chain[i..] && chain[i].parent == After(chain, i)
      {
        assert chain[i] == parent.chain[i - 1];
        assert chain[i..] == parent.chain[i - 1..];
      }
    }

    /** The parent is again a scope chain, and its frames are the tail of this one's. */
    lemma ParentFrames()
      requires Valid() && parent != null
      ensures |chain| > 1 && parent.Valid() && parent.chain == chain[1..] && parent.Frames() == Frames()[1..]
    {
      assert chain[0].parent == After(chain, 0);
      assert chain[1].chain == chain[1..];
      forall i | 0 <= i < |parent.chain|
        ensures parent.chain[i].chain == parent.chain[i..] && parent.chain[i].parent == After(parent.chain, i)
      {
        assert parent.chain[i] == chain[i + 1];
        assert parent.chain[i..] == chain[i + 1..];
      }
    }

    lemma NoParent()
      requires Valid() && parent == null
      ensures chain == [this]
    {
      assert chain[0].parent == After(chain, 0);
    }

    method Get(name: string) returns (r: Option<V>)
      requires Valid()
      ensures r == Lookup(Frames(), name)
      decreases |chain|
    {
      if name in values {
        r := Some(values[name]);
      } else if parent != null {
        ParentFrames();
        r := parent.Get(name);
      } else {
        NoParent();
        r := None;
      }
    }

    /** Binds the name in the innermost frame. */
    method Set(name: string, value: V)
      requires Valid()
      modifies this
      ensures Frames() == SetHead(old(Frames()), name, value)
      ensures values == old(values)[name := value]
    {
      values := values[name := value];
      DistinctChain();
    }

    lemma DistinctChain()
      requires Valid()
      ensures forall i | 0 < i < |chain| :: chain[i] != this
    {
      forall i | 0 < i < |chain|
        ensures chain[i] != this
      {
        assert |chain[i].chain| == |chain| - i;
      }
    }

    method Assign(name: string, value: V) returns (found: bool)
      requires Valid()
      modifies chain
      ensures found == Lookup(old(Frames()), name).Some?
      ensures Frames() == AssignIn(old(Frames()), name, value)
      decreases |chain|
    {
      DistinctChain();
      if name in values {
        values := values[name := value];
        found := true;
      } else if parent != null {
        ParentFrames();
        found := parent.Assign(name, value);
        ParentFrames();
        assert Frames() == [values] + parent.Frames();
      } else {
        NoParent();
        found := false;
      }
    }
  }

  // ---------- Facts about frames ----------

  lemma LookupPush<V>(frames: seq<map<string, V>>, name: string)
    ensures Lookup([map[]] + frames, name) == Lookup(frames, name)
  {
    assert ([map[]] + frames)[1..] == frames;
  }

  lemma {:induction false} LookupSetHead<V>(frames: seq<map<string, V>>, name: string, value: V, other: string)
    requires frames != []
    ensures Lookup(SetHead(frames, name, value), other) == if other == name then Some(value) else Lookup(frames, other)
  {
    assert SetHead(frames, name, value)[1..] == frames[1..];
  }

  /** Assignment changes the looked-up value of that name alone, and only if it is bound. */
  lemma {:induction false} LookupAssignIn<V>(frames: seq<map<string, V>>, name: string, value: V, other: string)
    ensures Lookup(AssignIn(frames, name, value), other)
         == if other == name && Lookup(frames, name).Some? then Some(value) else Lookup(frames, other)
  {
    if frames != [] {
      if name in frames[0] {
        LookupSetHead(frames, name, value, other);
      } else {
        LookupAssignIn(frames[1..], name, value, other);
        assert AssignIn(frames, name, value)[1..] == AssignIn(frames[1..], name, value);
      }
    }
  }

  /** i is the innermost frame that binds the name. */
  predicate BindsFirst<V>(frames: seq<map<string, V>>, name: string, i: nat) {
    i < |frames| && name in frames[i] && forall j | 0 <= j < i :: name !in frames[j]
  }

  /** Assignment changes one entry, the name's in the innermost frame that binds it; every other frame is untouched. */
  lemma {:induction false} AssignInFrame<V>(frames: seq<map<string, V>>, name: string, value: V, i: nat)
    requires i < |frames|
    ensures AssignIn(frames, name, value)[i] == if BindsFirst(frames, name, i) then frames[i][name := value]
      else frames[i]
    ensures AssignIn(frames, name, value)[i].Keys == frames[i].Keys
  {
    if name !in frames[0] && i > 0 {
      AssignInFrame(frames[1..], name, value, i - 1);
      assert forall j | 0 < j < i :: frames[j] == frames[1..][j - 1];
      assert forall j | 0 <= j < i - 1 :: frames[1..][j] == frames[j + 1];
    } else if i == 0 && name in frames[0] {
      assert frames[0][name := value].Keys == frames[0].Keys;
    }
  }

  lemma {:induction false} LookupIndex<V>(frames: seq<map<string, V>>, name: string) returns (i: nat)
    requires Lookup(frames, name).Some?
    ensures i < |frames| && name in frames[i] && Lookup(frames, name) == Some(frames[i][name])
    ensures forall j | 0 <= j < i :: name !in frames[j]
  {
    if name in frames[0] {
      i := 0;
    } else {
      var k := LookupIndex(frames[1..], name);
      i := k + 1;
      assert forall j | 0 < j < i :: frames[j] == frames[1..][j - 1];
    }
  }

  lemma {:induction false} LookupNone<V>(frames: seq<map<string, V>>, name: string, i: nat)
    requires Lookup(frames, name).None? && i < |frames|
    ensures name !in frames[i]
  {
    if i > 0 {
      LookupNone(frames[1..], name, i - 1);
    }
  }
}
