/** Types and sequence helpers shared by the whole model. */
module Common {

  datatype Option<+T> = None | Some(value: T) {
    function GetOr(default: T): T {
      match this
      case Some(v) => v
      case None => default
    }
  }

  /** The range of a `uint32_t`; the program compares such ids and never does arithmetic on them. */
  type u32 = x: int | 0 <= x < 0x1_0000_0000

  /** One octet of a websocket message. */
  type byte = x: int | 0 <= x < 0x100

  /** `chime::Attendee`. */
  datatype Attendee = Attendee(attendeeId: string, externalUserId: string)

  function Init<T>(s: seq<T>): seq<T>
    requires s != []
  {
    s[..|s| - 1]
  }

  function Last<T>(s: seq<T>): T
    requires s != []
  {
    s[|s| - 1]
  }

  lemma PrefixSnoc<T>(s: seq<T>, i: nat)
    requires i < |s|
    ensures s[..i + 1] == s[..i] + [s[i]] && Init(s[..i + 1]) == s[..i] && Last(s[..i + 1]) == s[i]
  {
  }

  function Flatten<T>(s: seq<seq<T>>): seq<T> {
    if s == [] then [] else Flatten(Init(s)) + Last(s)
  }

  lemma AppendAssociative<T>(a: seq<T>, b: seq<T>, c: seq<T>)
    ensures a + (b + c) == (a + b) + c
  {
  }

  lemma SliceOfSlice<T>(s: seq<T>, from: nat, to: nat, p: nat, q: nat)
    requires from <= to <= |s| && p <= q <= to - from
    ensures s[from..to][p..q] == s[from + p..from + q]
  {
    var a, b := s[from..to][p..q], s[from + p..from + q];
    forall i | 0 <= i < q - p ensures a[i] == b[i] {
      assert s[from..to][p + i] == s[from + p + i];
    }
    assert a == b;
  }

  lemma SliceInThree<T>(s: seq<T>, from: nat, p: nat, q: nat)
    requires from <= p <= q <= |s|
    ensures s[from..p] + s[p..q] + s[q..] == s[from..]
  {
  }

  lemma {:induction false} FlattenAppend<T>(a: seq<seq<T>>, b: seq<seq<T>>)
    ensures Flatten(a + b) == Flatten(a) + Flatten(b)
  {
    if b == [] {
      assert a + b == a;
    } else {
      FlattenAppend(a, Init(b));
      assert Init(a + b) == a + Init(b);
    }
  }
}
