/** The scenarios of the repository's `ArrTest` unit tests, restated as facts
    about the model. Values are PHP integers or strings. */
module ArrScenarios {
  import opened Results
  import opened PhpArrays
  import opened StdArr
  import opened CType

  /** `range(0, 9)`. */
  function Range10(): (a: PhpArray<int>)
    ensures |a| == 10
  {
    List([0, 1, 2, 3, 4, 5, 6, 7, 8, 9])
  }

  /** `array_combine($array, $array)` for `$array = ['test1', ..., 'test5']`. */
  function Tests5(): (a: PhpArray<string>)
    ensures |a| == 5
    ensures forall i :: 0 <= i < |a| ==> a[i].0.StrKey?
  {
    [(StrKey("test1"), "test1"), (StrKey("test2"), "test2"), (StrKey("test3"), "test3"),
     (StrKey("test4"), "test4"), (StrKey("test5"), "test5")]
  }

  /** Construction with no argument, with an array and with another instance
      succeeds; construction with a string throws. */
  lemma ConstructScenarios()
    ensures New<int>().Success?
    ensures New(ArrayValue(Range10())).Success?
    ensures var obj := New(ArrayValue(List(["test array"])));
            obj.Success? && New(ArrInstance(obj.value)).Success?
    ensures New<string>(OtherValue) == Failure(InvalidArgument("You must pass through a valid array"))
    ensures ToArray(New<int>(ArrayValue([])).value) == []
    ensures Count(New(ArrayValue(Range10())).value) == 10
  {
  }

  /** `slice(5)` on `range(0, 9)` gives `range(5, 9)`, renumbered from zero. */
  lemma SliceFromFiveOfRange()
    ensures var r := Slice(Arr(Range10()), "5");
            r.Success? && ToArray(r.value) == List([5, 6, 7, 8, 9])
  {
    assert DigitsValue("5") == 5;
    SliceOfList([0, 1, 2, 3, 4, 5, 6, 7, 8, 9], 5, None);
    assert [0, 1, 2, 3, 4, 5, 6, 7, 8, 9][5..10] == [5, 6, 7, 8, 9];
  }

  /** `slice(3)` on the string-keyed array keeps `test4` and `test5` under their
      own keys. */
  lemma SliceFromThreeOfNamed()
    ensures var r := Slice(Arr(Tests5()), "3");
            r.Success? && ToArray(r.value) == [(StrKey("test4"), "test4"), (StrKey("test5"), "test5")]
  {
  }

  /** `slice(5, 1)` on `range(0, 9)` gives `[5]`. */
  lemma SliceFiveOneOfRange()
    ensures var r := Slice(Arr(Range10()), "5", Some("1"));
            r.Success? && ToArray(r.value) == List([5])
  {
  }

  /** `slice(4, 2)` on `range(0, 9)` gives `[4, 5]`. */
  lemma SliceFourTwoOfRange()
    ensures var r := Slice(Arr(Range10()), "4", Some("2"));
            r.Success? && ToArray(r.value) == List([4, 5])
  {
  }

  /** `slice(3, 1.1)`: the length's string form "1.1" is not a digit string, so
      the call throws rather than returning `test4`. */
  lemma SliceWithFractionalLength()
    ensures Slice(Arr(Tests5()), "3", Some("1.1")) == Failure(InvalidArgument("Length must be an integer or NULL"))
  {
  }

  /** `slice(3, 2)` on the string-keyed array keeps `test4` and `test5`. */
  lemma SliceThreeTwoOfNamed()
    ensures var r := Slice(Arr(Tests5()), "3", Some("2"));
            r.Success? && ToArray(r.value) == [(StrKey("test4"), "test4"), (StrKey("test5"), "test5")]
  {
  }
}
