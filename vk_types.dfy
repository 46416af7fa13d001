// Shared vocabulary of the engine (src/vk_types.h): API status codes, the
// VK_CHECK filter, the engine's error kinds, array_concat and OptionalReference.

module VkTypes {

  /** An API status code, as the numeric value the graphics API defines. */
  type VkResult = int

  const Success: VkResult := 0
  const NotReady: VkResult := 1
  const Timeout: VkResult := 2
  const EventSet: VkResult := 3
  const EventReset: VkResult := 4
  const Incomplete: VkResult := 5
  const ErrorOutOfHostMemory: VkResult := -1
  const ErrorOutOfDeviceMemory: VkResult := -2
  const ErrorInitializationFailed: VkResult := -3
  const ErrorDeviceLost: VkResult := -4
  const SuboptimalKhr: VkResult := 1000001003
  const ErrorOutOfDateKhr: VkResult := -1000001004

  /** The API reports a failure exactly with a negative code. */
  predicate IsErrorCode(r: VkResult) {
    r < 0
  }

  /** The ways an operation of the engine can fail. */
  datatype Error =
    | FatalError(message: string)   // the engine's own FatalError
    | OutOfRange                    // std::out_of_range from a checked `.at()`
    | NarrowingError                // gsl::narrowing_error from gsl::narrow
    | QuitRequested                 // the QuitException thrown on a quit event
    | OutOfBoundsAccess             // a memory access past the end of a mapping or a buffer:
                                    // undefined behaviour in the source, not an exception

  /** A value or the error that was thrown instead. */
  datatype Result<T> = Ok(value: T) | Err(error: Error)

  /** Normal completion or the error that was thrown. */
  datatype Outcome = Pass | Fail(error: Error)

  const VkCheckMessage := "Detected Vulkan error"

  /** VK_CHECK: throws FatalError unless the status is eSuccess or eTimeout, so every
      failure code and every other non-success code (eNotReady, eIncomplete,
      eSuboptimalKHR) is rejected. */
  function VkCheck(r: VkResult): (o: Outcome)
    ensures o.Pass? <==> r == Success || r == Timeout
    ensures o.Fail? ==> o.error.FatalError?
    ensures IsErrorCode(r) ==> o == Fail(FatalError(VkCheckMessage))
  {
    if r != Success && r != Timeout then Fail(FatalError(VkCheckMessage)) else Pass
  }

  // ---------------------------------------------------------------------------
  // array_concat

  /** The concatenation of `parts`, in order. */
  function Concat<T>(parts: seq<seq<T>>): seq<T>
  {
    if parts == [] then [] else Concat(parts[..|parts| - 1]) + parts[|parts| - 1]
  }

  /** The sum of the lengths of `parts` (the fold `(Sizes + ...)`). */
  function TotalLength<T>(parts: seq<seq<T>>): nat
  {
    if parts == [] then 0 else TotalLength(parts[..|parts| - 1]) + |parts[|parts| - 1]|
  }

  lemma {:induction false} ConcatLength<T>(parts: seq<seq<T>>)
    ensures |Concat(parts)| == TotalLength(parts)
  {
    if parts != [] {
      ConcatLength(parts[..|parts| - 1]);
    }
  }

  lemma {:induction false} TotalLengthPrefix<T>(parts: seq<seq<T>>, k: nat)
    requires k <= |parts|
    ensures TotalLength(parts[..k]) <= TotalLength(parts)
  {
    if k < |parts| {
      var n := |parts| - 1;
      assert parts[..n][..k] == parts[..k];
      TotalLengthPrefix(parts[..n], k);
    } else {
      assert parts[..k] == parts;
    }
  }

  /** Element `j` of part `k` lands at the offset given by the lengths of the parts before it. */
  lemma {:induction false} ConcatAt<T>(parts: seq<seq<T>>, k: nat, j: nat)
    requires k < |parts| && j < |parts[k]|
    ensures TotalLength(parts[..k]) + j < |Concat(parts)|
    ensures Concat(parts)[TotalLength(parts[..k]) + j] == parts[k][j]
  {
    var n := |parts| - 1;
    ConcatLength(parts);
    ConcatLength(parts[..n]);
    if k == n {
      assert parts[..k] == parts[..n];
    } else {
      assert parts[..n][..k] == parts[..k];
      ConcatAt(parts[..n], k, j);
    }
  }

  /** Something is in the concatenation exactly when it is in one of the parts. */
  lemma {:induction false} InConcat<T>(parts: seq<seq<T>>, x: T)
    ensures x in Concat(parts) <==> exists k :: 0 <= k < |parts| && x in parts[k]
  {
    if parts != [] {
      var n := |parts| - 1;
      InConcat(parts[..n], x);
      if x in Concat(parts) && x !in parts[n] {
        var k :| 0 <= k < n && x in parts[..n][k];
        assert x in parts[k];
      }
      if exists k :: 0 <= k < |parts| && x in parts[k] {
        var k :| 0 <= k < |parts| && x in parts[k];
        if k < n {
          assert x in parts[..n][k];
        }
      }
    }
  }

  /** InConcat for every value at once. */
  lemma ConcatMembers<T>(parts: seq<seq<T>>)
    ensures forall x :: x in Concat(parts) <==> exists k :: 0 <= k < |parts| && x in parts[k]
  {
    forall x {
      InConcat(parts, x);
    }
  }

  /** std::ranges::copy of one part to the output position `pos`. */
  method CopyAt<T>(a: array<T>, pos: nat, part: seq<T>)
    requires pos + |part| <= a.Length
    modifies a
    ensures a[..pos] == old(a[..pos])
    ensures a[pos..pos + |part|] == part
  {
    for j := 0 to |part|
      invariant a[..pos] == old(a[..pos])
      invariant a[pos..pos + j] == part[..j]
    {
      a[pos + j] := part[j];
      assert a[pos..pos + j + 1] == a[pos..pos + j] + [part[j]];
    }
  }

  /** array_concat: copies every part in turn into one output array through an
      advancing output position. */
  method ArrayConcat<T(0)>(parts: seq<seq<T>>) returns (out: seq<T>)
    ensures out == Concat(parts)
    ensures |out| == TotalLength(parts)
  {
    ConcatLength(parts);
    var a := new T[TotalLength(parts)];
    var pos := 0;
    for k := 0 to |parts|
      invariant pos == TotalLength(parts[..k]) <= a.Length
      invariant a[..pos] == Concat(parts[..k])
    {
      assert parts[..k + 1][..k] == parts[..k];
      TotalLengthPrefix(parts, k + 1);
      CopyAt(a, pos, parts[k]);
      assert a[..pos + |parts[k]|] == a[..pos] + a[pos..pos + |parts[k]|];
      pos := pos + |parts[k]|;
    }
    assert parts[..|parts|] == parts;
    out := a[..];
  }

  // ---------------------------------------------------------------------------
  // Order-preserving filters (std::views::filter)

  /** The elements of `s` that `keep` accepts, in their order in `s`. */
  function Filter<T>(s: seq<T>, keep: T -> bool): (r: seq<T>)
    ensures |r| <= |s|
    ensures forall i :: 0 <= i < |r| ==> r[i] in s && keep(r[i])
    ensures forall i :: 0 <= i < |s| && keep(s[i]) ==> s[i] in r
  {
    if s == [] then []
    else Filter(s[..|s| - 1], keep) + (if keep(s[|s| - 1]) then [s[|s| - 1]] else [])
  }

  /** The positions in `s` of the elements `keep` accepts, in increasing order. */
  function KeptIndices<T>(s: seq<T>, keep: T -> bool): (ix: seq<nat>)
    ensures forall k :: 0 <= k < |ix| ==> ix[k] < |s| && keep(s[ix[k]])
    ensures forall k, l :: 0 <= k < l < |ix| ==> ix[k] < ix[l]
    ensures forall i :: 0 <= i < |s| && keep(s[i]) ==> i in ix
  {
    if s == [] then []
    else
      var n := |s| - 1;
      assert forall k :: 0 <= k < n ==> s[..n][k] == s[k];
      KeptIndices(s[..n], keep) + (if keep(s[n]) then [n] else [])
  }

  /** The filter picks exactly the elements at the kept positions: it keeps the
      accepted elements and their order, and drops every other. */
  lemma {:induction false} FilterAtKeptIndices<T>(s: seq<T>, keep: T -> bool)
    ensures |Filter(s, keep)| == |KeptIndices(s, keep)|
    ensures forall k :: 0 <= k < |Filter(s, keep)| ==> Filter(s, keep)[k] == s[KeptIndices(s, keep)[k]]
  {
    if s != [] {
      var n := |s| - 1;
      FilterAtKeptIndices(s[..n], keep);
      assert forall k :: 0 <= k < n ==> s[..n][k] == s[k];
    }
  }

  // ---------------------------------------------------------------------------
  // OptionalReference

  datatype Option<T> = None | Some(value: T)

  /** An object a reference can be bound to: `value` is its current state, which
      anyone holding it may change in place. */
  class Referent<T> {
    var value: T

    constructor(v: T)
      ensures value == v
    {
      value := v;
    }
  }

  /** A nullable, rebindable reference: `pointer` is null by default and is set to the
      referent's address by construction from a referent or by assignment. The
      defaulted copy constructor and copy assignment copy the pointer, so every copy
      sees and changes the same referent. */
  class OptionalReference<T> {
    var pointer: Referent?<T>

    /** The default constructor: empty. */
    constructor Empty()
      ensures pointer == null && !HasValue()
    {
      pointer := null;
    }

    /** Construction from a referent: points at that very object. */
    constructor Bound(referent: Referent<T>)
      ensures pointer == referent && HasValue()
    {
      pointer := referent;
    }

    /** Assignment from a referent: rebinds to that very object; the referent it
        pointed at before is left as it was. */
    method Assign(referent: Referent<T>)
      modifies this
      ensures pointer == referent && HasValue()
    {
      pointer := referent;
    }

    /** The defaulted copy (and move) constructor: the same pointer as `other`. */
    constructor Copy(other: OptionalReference<T>)
      ensures pointer == other.pointer && HasValue() == other.HasValue()
    {
      pointer := other.pointer;
    }

    /** The defaulted copy (and move) assignment: takes over `other`'s pointer. */
    method AssignFrom(other: OptionalReference<T>)
      modifies this
      ensures pointer == other.pointer && HasValue() == old(other.HasValue())
    {
      pointer := other.pointer;
    }

    /** has_value and the conversion to bool. */
    predicate HasValue(): (bound: bool)
      reads this
      ensures bound <==> pointer != null
    {
      pointer != null
    }

    /** apply(f): calls f on the referent, through a reference to it, only when
        bound. `f` is what the call does to the referent; a call that only reads
        it is the identity. Nothing is returned. */
    method Apply(f: T -> T)
      modifies pointer
      ensures old(pointer) != null ==> pointer.value == f(old(pointer.value))
    {
      if pointer != null {
        pointer.value := f(pointer.value);
      }
    }
  }

  /** A reference and its copy share one referent: what apply does through one of
      them is seen through the other, and a referent changed directly is seen
      through both. */
  method SharedReferent(v: int) returns (seenByFirst: int, seenBySecond: int)
    ensures seenByFirst == v + 2 && seenBySecond == v + 2
  {
    var x := new Referent(v);
    var a := new OptionalReference.Bound(x);
    var b := new OptionalReference.Copy(a);
    a.Apply(n => n + 1);
    x.value := x.value + 1;
    seenByFirst := a.pointer.value;
    seenBySecond := b.pointer.value;
  }
}
