# Arr: a verified model of `Warpcode\Std\Arr`

`Warpcode\Std\Arr` wraps one PHP array, its private `$store`. The constructor
accepts a PHP array or another `Arr`. `toArray()` hands the store back.
`count()` and its alias `length()` report the number of entries. `slice($index, $length = NULL)`
checks the index with `ctype_digit((string)$index)`, and the length the same
way only when it is not NULL. It then returns a new `Arr` built from
`array_slice($store, $index, $length)`, which receives the original arguments,
not their string forms.

The model is written in Dafny as pure functions over immutable values:

- `results.dfy` (module `Results`): `Option` for a NULL-able argument and
  `Result` for a call that may throw.
- `ctype.dfy` (module `CType`): `ctype_digit` on a string (`IsDigitString`),
  the integer a digit string is coerced to (`DigitsValue`), and the `(string)`
  cast of an integer (`NatToString`, `IntToString`).
- `php_array.dfy` (module `PhpArrays`): a PHP array as a sequence of
  `(Key, V)` pairs, with `Key = IntKey(int) | StrKey(string)`, an opaque value
  type `V`, and the subset type `PhpArray<V>` requiring distinct keys.
  `ArraySlice` models `array_slice` with `preserve_keys` false. It takes the
  pairs at positions `[min(offset, count), min(offset + length, count))`, or up
  to `count` without a length. It then renumbers the integer keys 0, 1, 2, … in
  order, keeping string keys and all values (`Renumber`). `IsSliceOf` is an
  independent, position-by-position description of the same result, and
  `SliceIsDetermined` shows that the description admits only one result.
- `arr.dfy` (module `StdArr`): the class itself.
  - `Arr<V>` is an instance (its store).
  - `Argument<V>` is what the constructor may receive.
  - `Error = InvalidArgument(message)` is `\InvalidArgumentException`, with the
    source's three messages as constants.
  - `New`, `ToArray`, `Count`, `Length` and `Slice` are the class's methods.
  - `Slice` takes its arguments in their PHP string form, the form
    `ctype_digit` inspects. A NULL length is `None`. This is faithful for
    arguments that `array_slice` coerces to the integer their string form
    denotes: integers, numeric strings, integral floats and booleans. Objects
    are not covered (see "Left out").
- `arr_test.dfy` (module `ArrScenarios`): the scenarios of
  `tests/ArrTest.php`, stated as lemmas about the model.

Because instances are values, `Slice` cannot change the instance it is called
on. This matches the source: `slice` (src/Arr.php:39-49) only reads
`$this->store`, so the source `Arr` keeps the same store and count after the
call.

The test suite and the code disagree on one point. tests/ArrTest.php:95 calls
`slice(3, 1.1)` and expects `['test4' => 'test4']`. But src/Arr.php:44-46 casts
the length to the string "1.1", which `ctype_digit` rejects, so the call throws
`InvalidArgumentException`. The model follows the code.
`ArrScenarios.SliceWithFractionalLength` states the rejection.

## Model

| member | source | states |
|---|---|---|
| StdArr.New | src/Arr.php:20-30 | The constructor fails with `InvalidArgument("You must pass through a valid array")` exactly when the argument is neither an array nor an `Arr`. An array is stored unchanged. Another instance yields an equal instance. |
| StdArr.ToArray | src/Arr.php:57-59 | `toArray()` returns the array from which the constructor rebuilds exactly this instance. |
| StdArr.ToArrayRoundTrip | src/Arr.php:57-59 | `toArray()` of an instance built from array `a` returns exactly `a`. The constructor with no argument holds the empty array, and its count is 0. |
| StdArr.CopyIsIdentity | src/Arr.php:24-26 | Constructing from another `Arr` succeeds and gives an instance with the same store. |
| StdArr.Count | src/Arr.php:86-88 | `count()` is the number of distinct keys in the store. |
| StdArr.Length | src/Arr.php:79-81 | `length()` is also the number of distinct keys in the store. |
| StdArr.CountEqualsLength | src/Arr.php:79-88 | `count()` and `length()` agree, and both equal the number of stored pairs. |
| StdArr.Slice | src/Arr.php:39-49 | `slice` succeeds exactly when the index's string form is a non-empty run of decimal digits and the length is NULL or also such a run. The index is checked first (message "Index must be an integer"), then the length ("Length must be an integer or NULL"). On success the new instance is the key-renumbered run of the source described by `IsSliceOf`. |
| StdArr.SliceCount | src/Arr.php:48 | A successful slice has `min(length, count - index)` entries, or `count - index` with a NULL length. It has none when the index is at or past the count. |
| StdArr.SliceIntegerIndex | src/Arr.php:40-42 | When the length is NULL or a digit string, an integer index is rejected exactly when it is negative. A non-negative one is the offset the slice starts from. |
| StdArr.SliceIntegerLength | src/Arr.php:44-46 | Once the index is accepted, an integer length is rejected with the length message exactly when it is negative. A non-negative one reaches `array_slice` as that integer. |
| StdArr.SliceOfListInstance | src/Arr.php:48 | Slicing an instance that holds a packed list gives the packed list of the selected values. |
| PhpArrays.Renumber | src/Arr.php:48 | Re-keying keeps the length, every value and every string key. The k-th integer-keyed pair (counting from 0) gets key `next + k`. |
| PhpArrays.RenumberKeepsKeysDistinct | src/Arr.php:48 | Renumbering an array with distinct keys from zero never makes two keys collide, so the slice is again a PHP array. |
| PhpArrays.ArraySlice | src/Arr.php:48 | `array_slice` without `preserve_keys` meets the reference description `IsSliceOf`. It keeps the pairs of the clamped window in order, with the same values and string keys, and renumbers the integer keys 0, 1, 2, …. |
| PhpArrays.SliceIsDetermined | src/Arr.php:48 | Two results that both meet the reference description of the same slice are equal. |
| PhpArrays.SliceSize | src/Arr.php:48 | The slice is empty when the offset is at or past the end. Otherwise it has `count - offset` entries without a length, and `min(length, count - offset)` with one. |
| PhpArrays.SliceOfList | src/Arr.php:48 | Slicing the packed list of values `vs` gives the packed list of `vs[start..end]`. |
| PhpArrays.SliceOfStringKeyed | src/Arr.php:48 | When every key is a string, the slice is exactly the window of pairs, unchanged. |
| PhpArrays.CountIsNumberOfKeys | src/Arr.php:87 | The number of distinct keys of an array with distinct keys is its number of pairs. |
| CType.IsDigitString | src/Arr.php:40 | `ctype_digit` on a string holds exactly when the string is non-empty and every character is one of "0123456789". An accepted string contains no minus sign, decimal point or space. |
| CType.IntToString | src/Arr.php:40 | The `(string)` cast of an integer is non-empty and starts with '-' exactly when the integer is negative. A non-negative integer's string is a digit string that parses back to it. A negative integer's string is '-' followed by a digit string that parses back to its magnitude. Both are in shortest form: no leading zero except in "0" itself. |
| CType.NatToString | src/Arr.php:40 | The string form of a non-negative integer is a digit string that `ctype_digit` accepts. It parses back to the integer and has no leading zero. |
| CType.IntStringIsDigitsIffNonNegative | src/Arr.php:40-42 | `ctype_digit((string)$i)` holds exactly when `$i >= 0`. The accepted string parses back to `$i`. |
| CType.CanonicalDigitsRoundTrip | src/Arr.php:40 | A digit string without a leading zero is the string form of the number it denotes. |
| ArrScenarios.ConstructScenarios | tests/ArrTest.php:13-69 | Constructing with no argument, an array or another instance succeeds. Constructing with a string throws. `toArray` of `[]` is `[]`, and `count` of `range(0, 9)` is 10. |
| ArrScenarios.SliceFromFiveOfRange | tests/ArrTest.php:80 | `slice(5)` on `range(0, 9)` is `range(5, 9)` renumbered from 0. |
| ArrScenarios.SliceFromThreeOfNamed | tests/ArrTest.php:81 | `slice(3)` on the five string-keyed entries gives `test4` and `test5` under their own keys. |
| ArrScenarios.SliceFiveOneOfRange | tests/ArrTest.php:93 | `slice(5, 1)` on `range(0, 9)` is `[5]`. |
| ArrScenarios.SliceFourTwoOfRange | tests/ArrTest.php:94 | `slice(4, 2)` on `range(0, 9)` is `[4, 5]`. |
| ArrScenarios.SliceWithFractionalLength | tests/ArrTest.php:95 | `slice(3, 1.1)` throws the length exception, unlike the test's expectation (see above). |
| ArrScenarios.SliceThreeTwoOfNamed | tests/ArrTest.php:96 | `slice(3, 2)` on the string-keyed entries gives `test4` and `test5`. |

## Left out

- `serialize` / `unserialize` (src/Arr.php:64-73): they delegate to PHP's native serializer, whose byte format is not part of this model. The model also assumes that the store is always an array, which `Arr<V>` enforces by its type. The source checks this only in the constructor (src/Arr.php:21-29). `unserialize` assigns whatever the payload decodes to, and PHP restores a `Serializable` object through it without calling the constructor. For an instance restored from a non-array payload, such as `unserialize('x')` leaving the store `false`, the model does not describe the behaviour:
  - `count()` and `length()` return 1 with a warning in PHP 7.2, and raise a `TypeError` in PHP 8.
  - `slice("0")` passes the argument checks, but `array_slice` receives a non-array and returns NULL. `new self(NULL)` then throws "You must pass through a valid array", where `StdArr.Slice` would promise success.
- The `Countable` and `Serializable` interfaces and the commented-out `IteratorAggregate` / `ArrayAccess` (src/Arr.php:5): language protocol glue with no logic of their own.
- tests/PhpUnit/Listeners/TestTimesListener.php: a test-runner listener that only measures time and prints.
- The structure of PHP values: values are an opaque type parameter.
- PHP's key normalisation: a PHP array never holds a string key such as "5" that spells a canonical integer, because PHP turns it into the integer key 5. `Key` does not enforce this. The source arrays are taken as PHP already normalised them.
- StdArr.Slice: integers are unbounded. An index given as a digit string beyond `PHP_INT_MAX` passes `ctype_digit`, but `array_slice` cannot coerce it to its `int` offset. In PHP 7 that is a warning and a NULL result, so `new self(NULL)` throws the constructor's exception. In PHP 8 it is a `TypeError`. The model instead slices from the large offset and returns an empty result. A length beyond `PHP_INT_MAX` behaves differently in PHP 7: `array_slice` reads the length as a raw value and converts it, saturating at `PHP_INT_MAX`, so the slice runs to the end. That is the model's result too. PHP 8 declares the length `?int` and raises a `TypeError` instead, which the model does not express.
- StdArr.Slice: arguments are given by their string form, and the model covers only arguments that `array_slice` coerces to the integer that form denotes: integers, numeric strings, integral floats and booleans. `IntToString` derives the form for integers, and a float such as `1.1` is given as "1.1". Three cases are not modelled:
  - An object whose `__toString` returns a digit string passes the `ctype_digit` check. As the index, `array_slice` refuses it as its `int` offset. In PHP 7 that is a warning and a NULL result, so `new self(NULL)` throws the constructor's exception. In PHP 8 it is a `TypeError`. As the length, PHP 7 converts the object to 1 with a notice, so the slice holds at most one entry. PHP 8 raises a `TypeError` instead. Given that digit string, the model instead slices with the number it denotes.
  - A non-integral float that prints as digits at PHP's default precision of 14 passes the check. For example, `(string)2.9999999999999996` is "3", so the "Index must be an integer" check lets a non-integer through. `array_slice` then truncates the float to 2, while the model, given "3", uses 3.
  - An object without `__toString` fails at the `(string)` cast, which the model cannot express. That is an `Error` in PHP 7.4 and later, and a recoverable fatal error before.
- Subclasses of `Arr`: the source defines none, so `instanceof self` is modelled as "is an `Arr`".
