/** The `Warpcode\Std\Arr` class: a wrapper that owns one PHP array (`$store`)
    and exposes it through construction, `toArray`, `count`, `length` and
    `slice`. An instance is modelled as an immutable value; no operation here
    writes to the store of an existing instance. */
module StdArr {
  import opened Results
  import opened PhpArrays
  import opened CType

  /** `\InvalidArgumentException`, with its message. */
  datatype Error = InvalidArgument(message: string)

  const ConstructMessage: string := "You must pass through a valid array"
  const IndexMessage: string := "Index must be an integer"
  const LengthMessage: string := "Length must be an integer or NULL"

  /** An `Arr` instance: its private `$store`. */
  datatype Arr<V> = Arr(store: PhpArray<V>)

  /** What may be passed to the constructor: a PHP array, another `Arr`
      instance, or any other PHP value (a string, a number, an object, NULL ...). */
  datatype Argument<V> = ArrayValue(entries: PhpArray<V>) | ArrInstance(instance: Arr<V>) | OtherValue

  /** `new Arr($array = [])`: an array is stored as it is, another instance has
      its store copied, anything else throws. */
  function New<V>(arg: Argument<V> := ArrayValue([])): (r: Result<Arr<V>, Error>)
    ensures r.Failure? <==> arg.OtherValue?
    ensures r.Failure? ==> r.error == InvalidArgument(ConstructMessage)
    ensures arg.ArrayValue? ==> r.Success? && r.value.store == arg.entries
    ensures arg.ArrInstance? ==> r.Success? && r.value == arg.instance
  {
    match arg
    case ArrayValue(a) => Success(Arr(a))
    case ArrInstance(other) => Success(Arr(other.store))
    case OtherValue => Failure(InvalidArgument(ConstructMessage))
  }

  /** `$arr->toArray()`: the stored array, the one array from which the
      constructor rebuilds this very instance. */
  function ToArray<V>(arr: Arr<V>): (a: PhpArray<V>)
    ensures New(ArrayValue(a)) == Success(arr)
  {
    arr.store
  }

  /** `$arr->count()`: the number of keys in the store. */
  function Count<V>(arr: Arr<V>): (n: nat)
    ensures n == |KeySet(ToArray(arr))|
  {
    CountIsNumberOfKeys(arr.store);
    |arr.store|
  }

  /** `$arr->length()`, the alias of `count()`: also the number of keys. */
  function Length<V>(arr: Arr<V>): (n: nat)
    ensures n == |KeySet(ToArray(arr))|
  {
    Count(arr)
  }

  /** The length argument as `array_slice` receives it: NULL stays NULL, a digit
      string is coerced to the integer it denotes. */
  function SliceLength(length: Option<string>): Option<nat>
    requires length.Some? ==> IsDigitString(length.value)
  {
    match length
    case None => None
    case Some(l) => Some(DigitsValue(l))
  }

  /** Whether `slice` accepts its arguments: `ctype_digit((string)$index)`, and
      `ctype_digit((string)$length)` unless the length is NULL. */
  predicate ValidSliceArguments(index: string, length: Option<string>) {
    IsDigitString(index) && (length.Some? ==> IsDigitString(length.value))
  }

  /** `$arr->slice($index, $length = NULL)`. Both arguments are given by their
      PHP string form, the form `ctype_digit` inspects; `None` is a NULL length.
      The index is checked first, then the length; on success the result is a
      new instance holding `array_slice($store, $index, $length)`. */
  function Slice<V>(arr: Arr<V>, index: string, length: Option<string> := None): (r: Result<Arr<V>, Error>)
    ensures r.Success? <==> ValidSliceArguments(index, length)
    ensures !IsDigitString(index) ==> r == Failure(InvalidArgument(IndexMessage))
    ensures IsDigitString(index) && length.Some? && !IsDigitString(length.value) ==>
      r == Failure(InvalidArgument(LengthMessage))
    ensures ValidSliceArguments(index, length) ==>
      IsSliceOf(ToArray(r.value), ToArray(arr), DigitsValue(index), SliceLength(length))
  {
    if !IsDigitString(index) then
      Failure(InvalidArgument(IndexMessage))
    else if length.Some? && !IsDigitString(length.value) then
      Failure(InvalidArgument(LengthMessage))
    else
      New(ArrayValue(ArraySlice(arr.store, DigitsValue(index), SliceLength(length))))
  }

  /** `toArray` returns exactly the array the instance was built from, and the
      constructor with no argument holds the empty array. */
  lemma ToArrayRoundTrip<V>(a: PhpArray<V>)
    ensures New(ArrayValue(a)).Success? && ToArray(New(ArrayValue(a)).value) == a
    ensures New<V>().Success? && ToArray(New<V>().value) == [] && Count(New<V>().value) == 0
  {
  }

  /** Copying an instance leaves its contents, and so its count, unchanged. */
  lemma CopyIsIdentity<V>(arr: Arr<V>)
    ensures New(ArrInstance(arr)) == Success(arr)
    ensures ToArray(New(ArrInstance(arr)).value) == ToArray(arr)
  {
  }

  /** `count()` and `length()` agree, and both are the number of stored pairs. */
  lemma CountEqualsLength<V>(arr: Arr<V>)
    ensures Count(arr) == Length(arr) == |ToArray(arr)|
  {
  }

  /** The number of entries in a successful slice: `min(length, count - index)`
      (or `count - index` with a NULL length) and none once the index reaches
      the count. */
  lemma {:induction false} SliceCount<V>(arr: Arr<V>, index: string, length: Option<string>)
    requires ValidSliceArguments(index, length)
    ensures var n := Count(arr);
            var i := DigitsValue(index);
            var c := Count(Slice(arr, index, length).value);
            && (i >= n ==> c == 0)
            && (i < n && length.None? ==> c == n - i)
            && (i < n && length.Some? ==>
                 c == (if DigitsValue(length.value) < n - i then DigitsValue(length.value) else n - i))
  {
  }

  /** Slicing with an integer index (through its string form) is rejected
      exactly when the index is negative, and otherwise starts at that index. */
  lemma SliceIntegerIndex<V>(arr: Arr<V>, index: int, length: Option<string>)
    requires length.Some? ==> IsDigitString(length.value)
    ensures Slice(arr, IntToString(index), length).Failure? <==> index < 0
    ensures index >= 0 ==>
      IsSliceOf(ToArray(Slice(arr, IntToString(index), length).value), ToArray(arr), index, SliceLength(length))
  {
  }

  /** An integer length (through its string form) is rejected exactly when it is
      negative, once the index has been accepted. */
  lemma SliceIntegerLength<V>(arr: Arr<V>, index: string, length: int)
    requires IsDigitString(index)
    ensures Slice(arr, index, Some(IntToString(length))).Failure? <==> length < 0
    ensures length < 0 ==> Slice(arr, index, Some(IntToString(length))) == Failure(InvalidArgument(LengthMessage))
    ensures length >= 0 ==> SliceLength(Some(IntToString(length))) == Some(length)
  {
  }

  /** Slicing a packed list gives the packed list of the selected values. */
  lemma {:induction false} SliceOfListInstance<V>(vs: seq<V>, index: nat, length: Option<nat>)
    ensures var l := match length case None => None case Some(n) => Some(NatToString(n));
            var r := Slice(Arr(List(vs)), NatToString(index), l);
            r.Success? && ToArray(r.value) == List(vs[SliceStart(|vs|, index)..SliceEnd(|vs|, index, length)])
  {
    SliceOfList(vs, index, length);
  }
}
