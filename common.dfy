/** Value types shared by every part of the fake-player admin model. */
module Common {

  /** A nullable Java reference: `None` stands for `null`. */
  datatype Option<+T> = None | Some(value: T)

  /** The unchecked exception a validation failure throws, with its message. */
  datatype Failure = IllegalArgument(message: string) | IllegalState(message: string)

  /** Either the value an operation returns or the validation exception it throws. */
  datatype Result<+T> = Ok(value: T) | Err(failure: Failure)

  /** A world coordinate, as `Location` carries it. */
  datatype Location = Location(x: int, y: int, z: int)

  /** A constant of the `ClassId` enum: its ordinal and its `name()`. */
  datatype ClassId = ClassId(id: nat, name: string)

  /** No element occurs twice. */
  predicate Distinct<T(==)>(s: seq<T>) {
    forall i, j :: 0 <= i < j < |s| ==> s[i] != s[j]
  }

  /** `s` lists the elements of `keys`, each exactly once. */
  predicate IsEnumeration<T(==)>(s: seq<T>, keys: set<T>) {
    Distinct(s) && Elements(s) == keys
  }

  function Max(a: int, b: int): int { if a < b then b else a }

  function Min(a: int, b: int): int { if a < b then a else b }

  /** The elements of `s`, as a set. */
  function Elements<T>(s: seq<T>): set<T> {
    set i | 0 <= i < |s| :: s[i]
  }

  /** Appending an element adds it to the set of elements. */
  lemma ElementsAppend<T>(s: seq<T>, x: T)
    ensures Elements(s + [x]) == Elements(s) + {x}
  {
    assert forall i :: 0 <= i < |s| ==> (s + [x])[i] == s[i];
    assert (s + [x])[|s|] == x;
  }

  /** A distinct sequence has as many elements as its set. */
  lemma {:induction false} DistinctCardinality<T>(s: seq<T>)
    requires Distinct(s)
    ensures |Elements(s)| == |s|
  {
    if s != [] {
      var init := s[..|s| - 1];
      DistinctCardinality(init);
      assert Elements(s) == Elements(init) + {s[|s| - 1]};
      assert s[|s| - 1] !in Elements(init);
    }
  }

  /** A set other than the empty set has an element (the witness `:|` needs). */
  lemma Inhabited(s: set<int>)
    requires s != {}
    ensures exists x :: x in s
  {
    if forall x :: x !in s {
      assert false;
    }
  }

  /** A finite set of integers has an upper bound. */
  lemma {:induction false} UpperBound(s: set<int>) returns (bound: int)
    ensures forall x :: x in s ==> x < bound
    decreases s
  {
    if s == {} {
      bound := 0;
    } else {
      Inhabited(s);
      var m :| m in s;
      var rest := UpperBound(s - {m});
      bound := Max(rest, m + 1);
      assert forall x :: x in s ==> x == m || x in s - {m};
    }
  }

  /** A finite set never holds every positive integer: an allocator always finds a free id. */
  lemma FreeIdExists(s: set<int>)
    ensures exists id :: id > 0 && id !in s
  {
    var bound := UpperBound(s);
    var b := Max(1, bound);
    assert b > 0 && b !in s;
  }

  /** Adding a new element to `done` raises the count of its members in `keys` by one exactly when that element is in `keys`. */
  lemma CountStep(done: set<int>, x: int, keys: set<int>)
    requires x !in done
    ensures |(done + {x}) * keys| == |done * keys| + (if x in keys then 1 else 0)
  {
    if x in keys {
      assert (done + {x}) * keys == done * keys + {x};
    } else {
      assert (done + {x}) * keys == done * keys;
    }
  }

  /** A subset is no larger than its superset. */
  lemma {:induction false} SubsetCardinality(a: set<int>, b: set<int>)
    requires a <= b
    ensures |a| <= |b|
    decreases b
  {
    if a != {} {
      Inhabited(a);
      var x :| x in a;
      SubsetCardinality(a - {x}, b - {x});
    }
  }
}
