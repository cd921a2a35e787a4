# Diff-detection sample corpus, modelled in Dafny

The repository is a corpus of small, standalone sample functions in C++, Go,
Java and Python. They were written as targets for a tool that detects and
classifies changes between versions of source files, so many of them come in
pairs: a file and its renamed copy, a function before and after a refactoring,
a function with a changed signature, docstring or whitespace. Most of them
still have exact behaviour that can be stated. This project models that
behaviour:

- the integer and string utilities duplicated across the languages (factorial
  with its negative-input error, the 6k±1 primality test, string reversal,
  palindrome checks, the maximum of an array, the C++ merge of sorted vectors);
- the sequence operations of the Python files (Fibonacci lists and generators,
  order-preserving filters, map, a reduce with a None-reset rule, stable sorts,
  word counting);
- the record transformations (key remapping, criteria-based filtering,
  field-type counting, dotted-path metric extraction, a recursive remap with
  key filtering, grouping by a field);
- the small stateful objects (entity tag sets and user permission sets, the
  resource data dictionary, the document version counter, a closure counter,
  type- and range-validated descriptors, validated properties, a memoisation
  cache, getter/setter classes).

Layout. Shared specifications sit in their own modules: `Outcomes` (result and
error types), `MathSpecs` (factorial, primality, Fibonacci, powers, 32- and
64-bit wrap-around), `SeqSpecs` (reversal, palindromes, order-preserving
filter, map, maximum, sums, merge), `Text` (ASCII case mapping, whitespace,
decimal text, split/join, repetition), `Sorting` (a stable sort by key, with
Python's ascending and `reverse=True` orders), `PyValues` (Python's dynamic
values and `==`), and `Records` (the column-remapping specification used by
three source functions). Each source file then has one module:
`CppBasic`, `GoBasic`, `JavaBasic`, `PyUtil`, `PyComplex`, `PyRefactored`,
`PyRefactoringSource`, `PyRefactoringDestination`, `PyClassHierarchy`,
`PyNested`, `PyLanguageFeatures`, `PyEdgeCases`, `PyBasic`, `PyRenamed`,
`PySignature`, `PyDocstring`, `PyWhitespace`, `PyOldName`, `PyNewName` and
`PyToBeRemoved`.

Modelling choices:
- A loop in the source becomes a Dafny method whose loop carries invariants
  and whose result is proved equal to a specification function. An object
  whose methods update fields becomes a class. Pure expressions become
  functions.
- Python values are the datatype `PyValues.Value` (None, bool, int, str,
  list, dict). A dict is a `map<string, Value>`. Python's `==` is `PyEq`, so
  `True == 1` and a bool key collides with the equal int.
- Python inheritance (`User(Entity)`, `Document(Resource)`,
  `AdminUser(User)`) is composition: the subclass object holds its base object
  in a constant field.
- Fixed-width integers:
  - Java `int`/`long` and Go `int` wrap around, which is written out with
    `Wrap32`/`Wrap64`.
  - C++ signed overflow is undefined behaviour, so the C++ functions require
    operands whose result fits in `int`.
- C++ strings are byte sequences, Go strings are rune sequences, and Java
  strings are code-point sequences.
- Exceptions, Go errors and `None` results are modelled as `Result`,
  `Outcome` or `Option` values carrying the error kind and its message.
- A Python function that takes no argument and returns a literal
  (helper_function_old, another_function in old_name.py and new_name.py,
  temporary_function, function_with_simple_docstring and
  function_with_minimal_docstring) is a Dafny constant, whose declaration is
  its whole behaviour.

## Model

| member | source | states |
|---|---|---|
| CppBasic.Add | cpp/basic_functions.cpp:21-23 | for operands whose sum fits in int, the sum, still an int |
| CppBasic.Subtract | cpp/basic_functions.cpp:31-33 | for operands whose difference fits in int, the difference |
| CppBasic.Multiply | cpp/basic_functions.cpp:41-43 | for operands whose product fits in int, the product |
| CppBasic.AddSubtractInverse | cpp/basic_functions.cpp:21-33 | subtracting b undoes adding b and vice versa, whenever the intermediate value fits |
| CppBasic.MultiplyLaws | cpp/basic_functions.cpp:41-43 | multiplication is commutative, 1 is its identity and 0 absorbs |
| CppBasic.Factorial | cpp/basic_functions.cpp:90-101 | invalid_argument exactly for n < 0; otherwise n! (1 for 0 and 1), within the 64-bit range the caller's bound guarantees; the loop keeps result == (i-1)! |
| CppBasic.IsPrime | cpp/basic_functions.cpp:103-128 | true exactly when n > 1 has no divisor strictly between 1 and n: the 2/3 test and the 6k±1 loop up to the square root are a sound and complete shortcut |
| CppBasic.ReverseInPlace | cpp/basic_functions.cpp:135-139 | std::reverse on the copied buffer: afterwards the array holds the reversal of its old contents |
| CppBasic.ReverseString | cpp/basic_functions.cpp:135-139 | the result is the reversal: same length, position k holds input position n-1-k |
| CppBasic.MergeSorted | cpp/basic_functions.cpp:176-199 | a permutation of a ++ b of length \|a\|+\|b\|; ascending when both inputs are; every copy of a value in a or b appears in it |
| GoBasic.IsPrime | go/basic_functions.go:43-63 | the code as written, with `i*i` wrapped to int64: a true answer is always right, and below 3037000499² (where the square cannot wrap) the answer is true exactly for primes |
| GoBasic.IsPrimeCorrected | go/basic_functions.go:43-63 | with the square taken exactly, true exactly when n is prime |
| GoBasic.WrappedTrialStep | go/basic_functions.go:56-62 | one pass of the wrapped loop: below 3037000499² a remainder 0 at i or i + 2 shows n composite; otherwise no divisor lies below i + 6, i + 6 <= n is again 5 modulo 6, and below 3037000499² it stays at most 3037000499 |
| GoBasic.NextTrialsFit | go/basic_functions.go:56-62 | for n not divisible by 2 or 3 and i < n with i 5 modulo 6, i + 2 <= n, and i + 6 <= n unless i + 2 is n: the loop's sums never pass n, so they do not wrap |
| GoBasic.GuardWrapsPastRoot | go/basic_functions.go:56 | 3037000499 is 5 modulo 6 and the last loop value whose square fits in int64; the square of the next one, 3037000505, wraps to a negative number, so the guard holds again past the square root |
| GoBasic.Factorial | go/basic_functions.go:67-82 | an error exactly for n < 0; otherwise the 64-bit wrapped n!, which equals n! for n <= 20 |
| GoBasic.ReverseString | go/basic_functions.go:85-91 | the two-index in-place swap of runes yields the reversal of the rune sequence |
| GoBasic.IsPalindrome | go/basic_functions.go:95-112 | true exactly when the lower-cased letters and digits read the same reversed |
| GoBasic.NoLettersIsPalindrome | go/basic_functions.go:95-112 | a string with no letter or digit is a palindrome |
| GoBasic.FindMax | go/basic_functions.go:131-144 | the "slice is empty" error exactly for an empty slice; otherwise an element of the slice at least as large as every element |
| GoBasic.FormatFullName | go/basic_functions.go:155-157 | the full name is the first name, then one space, then the last name, character for character |
| GoBasic.FormatFullNameSplits | go/basic_functions.go:155-157 | splitting the full name at spaces gives back first and last name when neither contains a space |
| GoBasic.AdultThresholdNarrows | go/basic_functions.go:159-175 | IsAdult is monotone in the threshold: an adult at a higher age is one at a lower, and filtering at a lower and then a higher threshold is filtering at the higher |
| GoBasic.FilterAdults | go/basic_functions.go:160-175 | the persons whose age is at least the threshold, in their original order; a person is kept exactly when IsAdult holds |
| GoBasic.SortByField | go/basic_functions.go:178-189 | a permutation of the items, ascending or descending as asked; the input is not changed |
| GoBasic.CountWords | go/basic_functions.go:192-199 | the number of maximal runs of non-space characters; 0 exactly for all-space text |
| JavaBasic.Add | java/BasicFunctions.java:15-17 | the 32-bit wrapped sum, equal to the sum when it fits |
| JavaBasic.Subtract | java/BasicFunctions.java:25-27 | the 32-bit wrapped difference, equal to the difference when it fits |
| JavaBasic.Multiply | java/BasicFunctions.java:35-37 | the 32-bit wrapped product, equal to the product when it fits |
| JavaBasic.WrapShift | java/BasicFunctions.java:15-37 | values congruent modulo 2^32 wrap to the same int |
| JavaBasic.AddSubtractInverse | java/BasicFunctions.java:15-27 | with wrap-around, subtract undoes add and add undoes subtract for every pair of ints |
| JavaBasic.MultiplyLaws | java/BasicFunctions.java:35-37 | wrapped multiplication is commutative, 1 is its identity and 0 absorbs |
| JavaBasic.JavaRem | java/BasicFunctions.java:58-60 | Java's `%`: the remainder takes the sign of the dividend, is smaller than the divisor in magnitude, and a == q·b + r for some quotient q |
| JavaBasic.IsEvenIffMultipleOfTwo | java/BasicFunctions.java:58-60 | isEven holds exactly for multiples of two, negatives included; an odd negative has remainder -1 |
| JavaBasic.Factorial | java/BasicFunctions.java:68-79 | IllegalArgumentException exactly for n < 0; otherwise the 64-bit wrapped n!, equal to n! for n <= 20 |
| JavaBasic.ReverseString | java/BasicFunctions.java:86-88 | the reversal: same length, mirrored positions, and reversing it again gives the input |
| JavaBasic.Clean | java/BasicFunctions.java:96 | the cleaned text has only lower-case ASCII letters and digits |
| JavaBasic.IsPalindrome | java/BasicFunctions.java:95-106 | the two-index loop answers true exactly when the cleaned text reads the same reversed |
| JavaBasic.FindMax | java/BasicFunctions.java:114-127 | IllegalArgumentException exactly for an empty array; otherwise an element at least as large as every element |
| JavaBasic.CalculateAverage | java/BasicFunctions.java:135-146 | IllegalArgumentException with its message exactly for an empty array |
| PyUtil.CalculateFactorial | python/util_functions.py:11-23 | 1 for every n <= 1, negative n included; n! for n >= 0 |
| PyUtil.IsPrime | python/util_functions.py:26-50 | true exactly when num is prime; the i += 6 loop checks i and i + 2 up to the square root |
| MathSpecs.NoDivisorBelowRootIsPrime | python/util_functions.py:41-50 | no divisor below i with i*i > n means n is prime: why the trial loops may stop at the square root |
| MathSpecs.StepSixPreservesNoDivisor | python/util_functions.py:44-48 | a number not divisible by 2 or 3 that passes i and i + 2 has no divisor below i + 6 |
| MathSpecs.TrialStep | python/util_functions.py:44-48 | one pass of the 6k-1 / 6k+1 loop: a remainder 0 at i or i + 2 shows n composite, otherwise no divisor lies below i + 6 and i + 6 is again 5 modulo 6 |
| MathSpecs.PyPow | python/nested_functions.py:109-111 | Python's `**` on ints: ZeroDivisionError with CPython's message exactly for base 0 and a negative exponent; otherwise an int exactly for a natural exponent |
| MathSpecs.PyPowNatural | python/edge_cases.py:20 | for a natural exponent `**` is the integer power |
| MathSpecs.PyPowNegative | python/edge_cases.py:20 | for a non-zero base and a negative exponent `**` gives the value whose product with base^-y is 1 |
| MathSpecs.PowNonZero | python/nested_functions.py:109-111 | a power of a non-zero base is non-zero, so the reciprocal exists |
| MathSpecs.SmallPrimes | python/util_functions.py:36-39 | 0, 1 and 4 are not prime, 2 and 3 are |
| MathSpecs.WrappedFact64Exact | java/BasicFunctions.java:68-79 | the wrapped 64-bit factorial is exact up to 20 and wrong at 21 |
| MathSpecs.FactFitsInt64 | cpp/basic_functions.cpp:90-101 | n! fits in 64 bits for n <= 20 and 21! does not |
| PyComplex.Fibonacci | python/complex_functions.py:14-35 | the first n Fibonacci numbers (empty for n <= 0, [0] for 1, [0, 1] for 2); each later element is the sum of the two before |
| PyComplex.DataProcessor.constructor | python/complex_functions.py:83-86 | the processor holds the data and is not processed |
| PyComplex.DataProcessor.FilterData | python/complex_functions.py:88-99 | exactly the records whose field (None when missing) equals the value, never longer than the data; in the data's order: filtering the data followed by more records gives this result followed by the filtered rest |
| PyComplex.DataProcessor.SortData | python/complex_functions.py:101-112 | TypeError exactly when the keys cannot be compared; otherwise a permutation sorted by the key, ascending or descending, stable among equal keys |
| PyComplex.DataProcessor.AggregateData | python/complex_functions.py:114-137 | TypeError exactly when some group-by value is unhashable; otherwise one group per distinct group-by value, in first-seen order, each keyed by the group-by value of the record that first had it and holding in order the field values of the records that have the field |
| PyComplex.Aggregate | python/complex_functions.py:125-137 | the loop over the records: the first unhashable group-by value raises TypeError, otherwise the groups aggregate all records, in first-seen order, each keyed by the first record's group-by value |
| PyComplex.FirstSeen | python/complex_functions.py:127-132 | the index of the first record whose group-by value has the given hash key, or -1 when no record has it |
| PyComplex.FirstSeenAppend | python/complex_functions.py:127-132 | one more record keeps every earlier first sighting and is the first sighting of its key when that key is new |
| PyComplex.FirstSeenIsSeen | python/complex_functions.py:127-132 | a key with a first sighting is among the keys seen |
| PyComplex.AddItemOrder | python/complex_functions.py:127-135 | each loop step keeps the entries in first-seen order with their first key objects; a new entry goes last, with the record's key |
| PyComplex.WithEntryOrder | python/complex_functions.py:131-132 | creating the missing entry keeps the first-seen order over the records up to the current one |
| PyComplex.NewEntryOrder | python/complex_functions.py:131-132 | an entry for an unseen key, appended last, is seen after every existing entry |
| PyComplex.OldEntriesOrder | python/complex_functions.py:127-132 | the existing entries keep their first sightings when one more record is read |
| PyComplex.OrderByKeys | python/complex_functions.py:133-135 | appending a value to an entry does not change the order, which depends on the keys alone |
| PyComplex.AggregateItem | python/complex_functions.py:127-135 | one record extends the aggregation of the records before it to the aggregation of the records up to it |
| PyComplex.AddToGroups | python/complex_functions.py:131-135 | the entry of the key is created when missing and the value appended unless it is None, as the group update describes |
| PyComplex.AddItemAggregates | python/complex_functions.py:127-135 | adding one record keeps the grouping exact: the step the loop repeats |
| PyComplex.AddItemTotal | python/complex_functions.py:127-135 | after each record, the grouped values number exactly the records that have the field |
| PyComplex.AddItemKeys | python/complex_functions.py:131-132 | a new group key is added once; group keys stay distinct |
| PyComplex.FindGroup | python/complex_functions.py:131-132 | finds the group whose key equals the value by Python equality, or reports that none exists |
| PyComplex.DataProcessor.Process | python/complex_functions.py:139-142 | sets processed and leaves the data unchanged |
| PyRefactored.ExtractConfigOptions | python/refactored_function.py:44-60 | exactly the five options, each copied from the config or set to its default ({}, {}, [], True, "json") |
| PyRefactored.IncludeStatsReadsOtherKey | python/refactored_function.py:58 | the include_stats option is read from the key "include_statistics", so a config lacking that key gets True |
| PyRefactored.ApplyColumnMapping | python/refactored_function.py:162-190 | each record is remapped by the mapping; an empty mapping returns the data unchanged; the number of records is kept |
| PyRefactored.MapItem | python/refactored_function.py:177-188 | the two loops for one record build exactly the remapped record |
| Records.RemapKeepsUnmapped | python/refactored_function.py:183-186 | a key that is not an old name in the mapping keeps its value, and wins over a mapped field of the same name |
| Records.RemapMovesMapped | python/refactored_function.py:178-181 | a present old name's value moves to its new name, the last mapping entry winning, unless an unmapped key holds that name |
| Records.RemapKeys | python/refactored_function.py:162-190 | the remapped record's keys are the unmapped keys plus the new names of present old keys |
| Records.RemapEmpty | python/refactored_function.py:173-174 | the empty mapping changes no record |
| PyRefactored.ConvertValueIfNumeric | python/refactored_function.py:193-212 | an all-digit string becomes the int it denotes; every other value is returned unchanged |
| PyRefactored.ConvertNumberText | python/refactored_function.py:193-212 | the decimal text of a number converts back to that number |
| PyRefactored.ConvertIdempotent | python/refactored_function.py:193-212 | converting twice is converting once |
| PyRefactored.Compare | python/refactored_function.py:238-241 | `>`/`<` between two numbers, TypeError exactly when the bound is not a number |
| PyRefactored.PyIn | python/refactored_function.py:242-245 | Python's `in` for list, dict and str containers, TypeError for unhashable dict keys, non-str needles in a str and non-containers |
| PyRefactored.OperatorCheck | python/refactored_function.py:233-245 | an absent operator passes; gt/lt on a non-number and contains on a non-str fail quietly |
| PyRefactored.FirstFailureFacts | python/refactored_function.py:226-251 | the chain of early returns passes exactly when every check passes, and otherwise returns the first check that did not |
| PyRefactored.FirstFailureAt | python/refactored_function.py:226-251 | after passing checks, a failing check decides and a passing one defers to the rest |
| PyRefactored.OperatorChecks | python/refactored_function.py:234-245 | the operators are checked in the source's order eq, ne, gt, lt, in, contains |
| PyRefactored.CheckOne | python/refactored_function.py:233-249 | a plain criterion is Python equality; a dict criterion is the first failing operator check or success |
| PyRefactored.CheckOneChain | python/refactored_function.py:233-245 | a dict criterion's outcome is the first failure among the six operator checks |
| PyRefactored.CriterionOutcomes | python/refactored_function.py:226-249 | one outcome per criterion, in the criteria's order |
| PyRefactored.DecideFirst | python/refactored_function.py:215-251 | criteria pass exactly when all do; a missing field fails; no criteria pass |
| PyRefactored.CheckFilterCriteria | python/refactored_function.py:215-251 | the loop with early returns decides as the first failing criterion does |
| PyRefactored.CheckCriterionDict | python/refactored_function.py:233-245 | the six operator tests with early returns give the outcome of the first operator that does not pass |
| PyRefactored.ApplyFiltering | python/refactored_function.py:254-278 | no criteria return the data and no stats; otherwise the passing records in order with the filtered and original counts, or the first TypeError raised |
| PyRefactored.FilteringKeepsPassing | python/refactored_function.py:268-271 | a record is kept exactly when it passes, and filtering never adds records |
| PyRefactored.FieldTypesFacts | python/refactored_function.py:368-387 | a field is listed exactly when some record has it, counted once per such record, with the type name of its value in the first record that has it |
| PyRefactored.FieldTypesMembers | python/refactored_function.py:380-383 | a field is listed exactly when some record has it |
| PyRefactored.FieldTypesCount | python/refactored_function.py:380-385 | the count of a field is the number of records that have it |
| PyRefactored.FieldTypesFirstType | python/refactored_function.py:382-383 | the type name of a field is that of its value in the first record holding it; later records do not change it |
| PyRefactored.AddKeysAt | python/refactored_function.py:381-385 | one record adds its new keys with count 1, counts its known keys once more and leaves other keys alone |
| PyRefactored.FieldTypesKeys | python/refactored_function.py:368-387 | the listed fields are the union of the records' keys |
| PyRefactored.ComputeFieldTypes | python/refactored_function.py:368-387 | the nested loops' result is the field-type summary |
| PyRefactored.CountRecordKeys | python/refactored_function.py:381-385 | the inner loop over one record's fields, in whatever order they come, counts exactly that record's keys |
| PyRefactored.ComputeOverallStatistics | python/refactored_function.py:390-410 | nothing when stats are off or the data is empty; otherwise the record count, the field types and the number of distinct fields, zero exactly when every record is empty |
| PyRefactoringSource.TransformDataStructure | python/refactoring_source.py:92-114 | the remapped record: unmapped keys keep their values, mapped values move to their new names |
| PyRefactoringSource.MappedOldKeyDropped | python/refactoring_source.py:105-112 | an old name that is not also a new name disappears from the result |
| PyRefactoringSource.IntValuesMembers | python/refactoring_source.py:27-31 | the collected numbers are exactly the int values found in the records, bools excluded |
| PyRefactoringSource.ProcessData | python/refactoring_source.py:13-51 | the empty summary for no data; otherwise the count, the union of keys and, exactly when some int occurs, their sum, minimum and maximum |
| PyRefactoringSource.CollectIntFields | python/refactoring_source.py:29-31 | the inner loop collects exactly the int fields of one record, booleans excluded, in any order |
| PyRefactoringSource.ComputeStats | python/refactoring_source.py:41-48 | min and max are among the values and bound all of them; sum is their total and count their number |
| PyRefactoringDestination.ProcessDataEnhanced | python/refactoring_destination.py:14-90 | "no data" exactly for empty input; otherwise the count, the union of keys, and the numeric, text and boolean value counts, with true and false counts when booleans occur |
| PyRefactoringDestination.CollectFieldValues | python/refactoring_destination.py:35-41 | the inner loop over one record's fields, in any order, adds exactly that record's int, string, bool, True and False counts to the three lists |
| PyRefactoringDestination.AppendByType | python/refactoring_destination.py:36-41 | an int lengthens only the numeric list, a string only the text list, a bool only the boolean list, and anything else none |
| PyRefactoringDestination.CategoriesStep | python/refactoring_destination.py:35-41 | counting one more field adds exactly that value's own categories |
| PyRefactoringDestination.BooleanCountsAddUp | python/refactoring_destination.py:76-81 | true and false counts add up to the boolean count |
| PyRefactoringDestination.CountWhereDisjoint | python/refactoring_destination.py:34-41 | counts of disjoint kinds of value add up |
| PyRefactoringDestination.KeepKeys | python/refactoring_destination.py:142-144 | with filter keys, exactly the listed keys that are present, with their values; without, the result unchanged |
| PyRefactoringDestination.NestedValues | python/refactoring_destination.py:119-140 | the same keys, each nested dict or list transformed when recursive |
| PyRefactoringDestination.FlatTransformAgrees | python/refactoring_destination.py:93-146 | without recursion or filtering, the new transform is the old file's remap |
| PyRefactoringDestination.FilterKeysRestrict | python/refactoring_destination.py:142-144 | with filter keys, a key is in the result exactly when it is listed and the remapping of the (transformed) values produces it |
| PyRefactoringDestination.TransformListDropsNonDicts | python/refactoring_destination.py:111-114 | a list is transformed element-wise and non-dict elements are dropped |
| PyRefactoringDestination.TransformDataStructure | python/refactoring_destination.py:93-146 | the recursive transform of a dict or list |
| PyRefactoringDestination.TransformDict | python/refactoring_destination.py:116-146 | the key loop, the recursion into nested values and the filter give the transform of the dict |
| PyRefactoringDestination.TransformList | python/refactoring_destination.py:111-114 | the list comprehension over the elements gives the transform of the list |
| PyRefactoringDestination.TransformValue | python/refactoring_destination.py:124-127 | a nested dict or list is transformed when recursive, any other value is kept |
| PyRefactoringDestination.MapEntries | python/refactoring_destination.py:119-129 | the mapping loop writes the mapped part of the record with nested values transformed |
| PyRefactoringDestination.CopyUnmapped | python/refactoring_destination.py:131-140 | the copying loop adds the unmapped fields, nested values transformed, over the mapped part |
| PyRefactoringDestination.Lookup | python/refactoring_destination.py:212-221 | an empty path is the value itself; a step into a non-dict or a missing key yields nothing |
| PyRefactoringDestination.MetricOfPlainKey | python/refactoring_destination.py:211-221 | a path without a dot reads the key directly, None when missing |
| PyRefactoringDestination.MetricOfDottedPath | python/refactoring_destination.py:211-221 | a dotted path steps into the first segment's dict |
| PyRefactoringDestination.ExtractMetricData | python/refactoring_destination.py:198-223 | one entry per requested path, each its metric value or None |
| PyRefactoringDestination.ParseStructuredData | python/refactoring_destination.py:149-195 | empty text gives {} whatever the format; an unknown format gives the single "Unsupported format" error entry; the key_value and json branches, and only they, give no modelled result |
| PyClassHierarchy.Entity.constructor | python/class_hierarchy.py:15-18 | id and name stored, no tags |
| PyClassHierarchy.Entity.AddTag | python/class_hierarchy.py:20-22 | the tag joins the set, which is otherwise unchanged; adding twice is adding once |
| PyClassHierarchy.Entity.HasTag | python/class_hierarchy.py:31-33 | true exactly when the tag is in the set, nothing changed |
| PyClassHierarchy.Entity.RemoveTag | python/class_hierarchy.py:24-29 | True exactly when the tag was present; afterwards it is absent and all other tags are as before |
| PyClassHierarchy.User.constructor | python/class_hierarchy.py:63-67 | a fresh entity, the email and the role ("standard" by default), no permissions |
| PyClassHierarchy.User.AddPermission | python/class_hierarchy.py:69-71 | the permission joins the set, which is otherwise unchanged |
| PyClassHierarchy.User.HasPermission | python/class_hierarchy.py:73-75 | true exactly when the permission is in the set, nothing changed |
| PyClassHierarchy.User.DisplayName | python/class_hierarchy.py:77-79 | the name, " (", the email and ")", so that name and email can both be read back |
| PyClassHierarchy.Resource.constructor | python/class_hierarchy.py:85-89 | owner and type stored, no tags, empty data |
| PyClassHierarchy.Resource.UpdateData | python/class_hierarchy.py:91-93 | get_data now returns the value for that key and as before for every other key |
| PyClassHierarchy.Resource.GetData | python/class_hierarchy.py:95-97 | the stored value, or the default (None unless given) for a key never stored |
| PyClassHierarchy.Resource.DisplayName | python/class_hierarchy.py:99-101 | the name, " (", the resource type and ")", so that both can be read back |
| PyClassHierarchy.Document.constructor | python/class_hierarchy.py:111-114 | a resource of type "document", empty content by default, version 1 |
| PyClassHierarchy.Document.UpdateContent | python/class_hierarchy.py:116-119 | the content is replaced and the version rises by exactly one |
| PyClassHierarchy.Image.constructor | python/class_hierarchy.py:130-134 | a resource of type "image" with the dimensions and format "png" unless given |
| PyClassHierarchy.AdminUser.constructor | python/class_hierarchy.py:145-150 | role "admin" and exactly the three administrator permissions, create_user and delete_user among them |
| PyClassHierarchy.AdminUser.CanManageUsers | python/class_hierarchy.py:152-154 | true exactly when the user has both create_user and delete_user, nothing changed |
| PyClassHierarchy.AdminUser.DisplayName | python/class_hierarchy.py:156-158 | the user's display name behind "Admin: " |
| PyNested.OuterFunctionSimple | python/nested_functions.py:9-23 | the inner closure adds x, applied to 10 |
| PyNested.Counter.constructor | python/nested_functions.py:26-33 | the count starts at 0 |
| PyNested.Counter.Increment | python/nested_functions.py:35-39 | the count rises by one and the new count is returned |
| PyNested.Counter.Decrement | python/nested_functions.py:41-45 | the count falls by one and the new count is returned |
| PyNested.Counter.GetCount | python/nested_functions.py:47-49 | the current count, nothing changed |
| PyNested.Counter.Reset | python/nested_functions.py:51-55 | the count is 0 again and 0 is returned |
| PyNested.CreateAdder | python/nested_functions.py:65-79 | the returned function adds x to every argument |
| PyNested.CreateMultiplier | python/nested_functions.py:82-96 | the returned function multiplies every argument by x |
| PyNested.CreatePowerFunction | python/nested_functions.py:99-113 | the returned function computes base ** exponent for every base, as Python's `**` on ints |
| PyNested.AddersCompose | python/nested_functions.py:65-79 | adders compose by adding amounts, and the adder of -x undoes the adder of x |
| PyNested.PowerFunctionRaises | python/nested_functions.py:109-111 | a power function raises exactly for base 0 with a negative exponent, and then ZeroDivisionError |
| PyNested.PowerFunctionsMultiply | python/nested_functions.py:99-113 | natural exponents give ints, and power functions multiply by adding exponents |
| PyNested.PowerFunctionsInverse | python/nested_functions.py:109-111 | for a non-zero base the power functions of e and -e give reciprocal values: a negative exponent gives the float 1 / base^-e |
| PyNested.SquareAndCube | python/nested_functions.py:99-113 | exponent 2 gives the int square and exponent 3 the int cube |
| PyNested.ReduceStep | python/nested_functions.py:160-166 | an accumulator of None is replaced by the item; any other is combined with it |
| PyNested.ReduceSequence | python/nested_functions.py:149-167 | the loop computes the item-by-item reduction; an empty sequence gives the initial value |
| PyNested.ReduceIsFold | python/nested_functions.py:149-167 | with a non-None start and a func never returning None, reduce is the ordinary left fold |
| PyNested.ReduceWithoutInitial | python/nested_functions.py:149-167 | without an initial value the first item seeds the fold over the rest |
| PyNested.ReduceNoneResets | python/nested_functions.py:163-166 | whenever the running result is None, the next item restarts the reduction |
| PyNested.ReduceAddsSum | python/nested_functions.py:149-167 | reducing ints with + from an int accumulator adds their sum to it |
| PyNested.ReduceSums | python/nested_functions.py:149-167 | reducing any non-empty sequence of ints with + and no initial value gives their sum |
| PyNested.MapSequence | python/nested_functions.py:123-134 | func applied to each element, length kept |
| PyNested.FilterSequence | python/nested_functions.py:136-147 | exactly the elements satisfying the predicate, in order, filtering distributing over concatenation |
| PyNested.FunctionWithMultipleLevels | python/nested_functions.py:176-192 | the three nested levels add x, y and z |
| PyLanguageFeatures.Memoized.constructor | python/language_features.py:57-67 | an empty cache |
| PyLanguageFeatures.Memoized.Call | python/language_features.py:70-77 | returns func of the argument; the function is called and cached only on the first call with that argument, and the cache stays correct |
| PyLanguageFeatures.DecoratorWithArguments | python/language_features.py:80-99 | a str result is wrapped in prefix and suffix; any other result is returned unchanged |
| PyLanguageFeatures.FormatString | python/language_features.py:369-372 | a str s becomes "<s>", from which s can be read back |
| PyLanguageFeatures.ClassDecorator | python/language_features.py:102-115 | a str result is upper-cased; any other is returned unchanged |
| PyLanguageFeatures.LowercaseFunction | python/language_features.py:375-378 | despite its name, the decorated function returns the upper-cased string: the class decorator upper-cases the lower-cased result |
| PyLanguageFeatures.FibonacciGenerator | python/language_features.py:120-133 | yields the first n Fibonacci numbers, none for n <= 0, each after the second the sum of the two before |
| PyLanguageFeatures.InfiniteCounter.constructor | python/language_features.py:136-150 | start 0 and step 1 unless given, nothing yielded yet |
| PyLanguageFeatures.InfiniteCounter.Next | python/language_features.py:136-150 | the k-th value yielded is start + k·step |
| PyLanguageFeatures.GetAttribute | python/language_features.py:223-227 | a stored attribute, or AttributeError naming the class and the attribute |
| PyLanguageFeatures.TypeCheck | python/language_features.py:231-232 | passes exactly for an instance of the type (a bool counts as an int), otherwise TypeError naming both types |
| PyLanguageFeatures.TypedProperty.constructor | python/language_features.py:218-221 | the value is stored under "_" + name |
| PyLanguageFeatures.TypedProperty.Get | python/language_features.py:223-227 | the stored value, or an error when never set |
| PyLanguageFeatures.TypedProperty.Set | python/language_features.py:229-233 | a value of the right type is stored and read back; a wrong type raises TypeError and stores nothing |
| PyLanguageFeatures.RangeCheck | python/language_features.py:253-256 | passes exactly within the given bounds; the minimum is checked first, each failure a ValueError naming its bound |
| PyLanguageFeatures.RangeProperty.constructor | python/language_features.py:239-243 | the bounds are optional and the value is stored under "_" + name |
| PyLanguageFeatures.RangeProperty.Get | python/language_features.py:245-249 | the stored value, or an error when never set |
| PyLanguageFeatures.RangeProperty.Set | python/language_features.py:251-257 | a value within bounds is stored and read back; one outside raises ValueError and stores nothing |
| PyLanguageFeatures.Person.constructor | python/language_features.py:265-268 | the name and age are stored as given, without validation |
| PyLanguageFeatures.Person.SetName | python/language_features.py:275-280 | an empty name raises ValueError and keeps the old name; any other name is stored; the age is untouched |
| PyLanguageFeatures.Person.SetAge | python/language_features.py:287-293 | a negative age raises ValueError and keeps the old age; otherwise it is stored; the name is untouched |
| PyLanguageFeatures.Person.IsAdult | python/language_features.py:295-297 | true exactly from age 18, nothing changed |
| PyEdgeCases.LambdaSum | python/edge_cases.py:13 | the sum of the sequence [x, y], the shared reference for every two-argument sum |
| PyEdgeCases.LambdaMultiply | python/edge_cases.py:15 | the product of the sequence [x, y] |
| PyEdgeCases.LambdaWithDefault | python/edge_cases.py:17 | the lambda sum with y = 10 unless given |
| PyEdgeCases.LambdaWithDocstring | python/edge_cases.py:20 | Python's x ** y: an int for y >= 0, 1 at 0 and one more factor x per step; for y < 0 the float whose product with x^-y is 1, and ZeroDivisionError exactly when x is 0 |
| PyEdgeCases.LambdaArgApplies | python/edge_cases.py:24-36 | applied to a subtracting lambda, function_with_lambda_arg undoes an addition; applied to the tuple's subtract after its add it gives back the first argument; applied to lambda_sum the argument order does not matter |
| PyEdgeCases.MultipliersCompose | python/edge_cases.py:40-50 | multipliers compose by multiplying their factors and distribute over addition; factor 1 is the identity |
| PyEdgeCases.SquareAll | python/edge_cases.py:54-64 | each number squared, in order, none negative |
| PyEdgeCases.FilterPositive | python/edge_cases.py:68-78 | exactly the positive numbers in their order; zero never kept |
| PyEdgeCases.SortBySecondItem | python/edge_cases.py:82-92 | IndexError when a pair lacks a second item; TypeError exactly when the second items cannot be compared; otherwise a stable permutation ordered by second item |
| PyEdgeCases.AddFive | python/edge_cases.py:96 | lambda_sum with first argument 5 |
| PyEdgeCases.MultiplyByTen | python/edge_cases.py:97 | the multiplier by ten |
| PyEdgeCases.LambdasAgree | python/edge_cases.py:13-113 | the tuple's add and multiply are lambda_sum and lambda_multiply and commute; add_five and multiply_by_ten are those lambdas with a fixed argument; the tuple's subtract undoes its add |
| PyEdgeCases.GetMathFuncs | python/edge_cases.py:101-113 | add, subtract (undone by adding back) and multiply; divide gives None exactly for a zero divisor |
| PyBasic.Subtract | python/basic_functions.py:10-21 | the difference, which added to b gives a |
| PyBasic.Multiply | python/basic_functions.py:24-35 | the product of the sequence [a, b] |
| PyBasic.ArithmeticLaws | python/basic_functions.py:10-56 | subtract undoes a sum and changes sign with its arguments; multiply is commutative and distributes over subtract; a product is a zero divisor for divide exactly when a factor is |
| PyBasic.Divide | python/basic_functions.py:38-56 | ZeroDivisionError "Cannot divide by zero" exactly for a zero divisor |
| PyBasic.CalculateAverage | python/basic_functions.py:74-93 | ValueError with its message exactly for an empty list |
| PyBasic.Greet | python/basic_functions.py:96-106 | the name between "Greetings, " and "! How are you today?", readable back |
| PyBasic.Cleaned | python/basic_functions.py:119 | the lower-cased text without spaces, never longer |
| PyBasic.IsPalindromeText | python/basic_functions.py:109-122 | true exactly when each position of the cleaned text matches its mirror |
| PyBasic.CleanedRemovesOnlySpaces | python/basic_functions.py:119 | cleaning works character by character: it distributes over concatenation, drops a space and lower-cases any other character |
| PyBasic.SpaceBetweenWordsIgnored | python/basic_functions.py:109-122 | for two space-free words, the text with one space between them is a palindrome exactly when the lower-cased joined words are |
| PyBasic.LowerSpaces | python/basic_functions.py:119 | lower-casing neither makes nor removes a space |
| PyRenamed.NewNameSimpleFunction | python/renamed_functions.py:8-19 | the sum of the sequence [a, b] |
| PyRenamed.RenamedFunctionWithBodyChanges | python/renamed_functions.py:22-40 | a + b + 2c, with c = 0 unless given |
| PyRenamed.ComplexFunctionWithOldName | python/renamed_functions.py:43-63 | the doubled items above the threshold (default 0.5, equality excluded) in order, never longer than the data |
| PyRenamed.DoubledAbove | python/renamed_functions.py:43-63 | a value is in the result exactly when it is twice some item above the threshold |
| PyRenamed.UtilityFunctionOriginal | python/renamed_functions.py:76-86 | stripped and lower-cased: no longer than the text and without surrounding whitespace |
| PyRenamed.UtilityFunctionIdempotent | python/renamed_functions.py:76-86 | applying it twice is applying it once |
| PyRenamed.LowerKeepsWhitespace | python/renamed_functions.py:86 | lower-casing neither creates nor removes whitespace |
| PySignature.FunctionForParamAddition | python/signature_changes.py:9-20 | the sum of the sequence [a, b] |
| PySignature.FunctionForParamRemoval | python/signature_changes.py:23-36 | the sum of the four |
| PySignature.FunctionForParamRename | python/signature_changes.py:39-50 | the product of the sequence [first_num, second_num] |
| PySignature.FunctionForDefaultParamChange | python/signature_changes.py:53-65 | greeting, ", ", name and punctuation readable back; defaults "Hello" and "!" |
| PySignature.FunctionWithTypeAnnotations | python/signature_changes.py:68-79 | b repeated a times: empty for a <= 0, length a·\|b\|, position p holding b[p mod \|b\|] |
| PySignature.FunctionWithArgsKwargs | python/signature_changes.py:82-96 | exactly the keys "args" and "kwargs", holding the arguments |
| PySignature.FunctionWithMultipleSignatureChanges | python/signature_changes.py:99-119 | "a" and "b" always, "c" exactly when c is not None |
| PyDocstring.FunctionWithComplexDocstring | python/docstring_changes.py:20-54 | ValueError exactly for a negative a or b; otherwise a and b, plus c exactly when not None |
| PyDocstring.FunctionWithEpydocDocstring | python/docstring_changes.py:57-69 | str(param1), ": ", str(param2) readable back, "None" for a missing param2 |
| PyDocstring.FunctionWithNumpyDocstring | python/docstring_changes.py:72-93 | the sum of the sequence [a, b] |
| PyDocstring.FunctionWithGoogleDocstring | python/docstring_changes.py:96-121 | each item times scale, length kept; scale 1 returns the data |
| PyWhitespace.FunctionWithNormalWhitespace | python/whitespace_changes.py:9-23 | the sum of the sequence [a, b, c] |
| PyWhitespace.FunctionWithCompactWhitespace | python/whitespace_changes.py:26-37 | the product of the sequence [a, b, c] |
| PyWhitespace.FunctionWithExcessiveWhitespace | python/whitespace_changes.py:40-53 | splitting at spaces gives the three numbers with an empty part between each: two spaces apart |
| PyWhitespace.FunctionWithUnusualIndentation | python/whitespace_changes.py:56-71 | larger and smaller are a and b, larger the maximum, smaller the minimum |
| PyOldName.WillBeRenamedFunction | python/old_name.py:5-16 | the sum of the sequence [a, b] |
| PyOldName.TestClass.constructor | python/old_name.py:32-33 | the name is stored |
| PyOldName.TestClass.GetName | python/old_name.py:35-37 | the stored name, nothing changed |
| PyOldName.TestClass.SetName | python/old_name.py:39-41 | get_name then returns the new name |
| PyNewName.WillBeRenamedFunction | python/new_name.py:5-16 | the sum of the sequence [a, b] |
| PyNewName.TestClass.constructor | python/new_name.py:32-33 | the name is stored |
| PyNewName.TestClass.GetName | python/new_name.py:35-37 | the stored name, nothing changed |
| PyNewName.TestClass.SetName | python/new_name.py:39-41 | get_name then returns the new name |
| PyToBeRemoved.AnotherTempFunction | python/to_be_removed.py:15-25 | the result is x squared (Pow(x, 2)); it is never negative and positive for non-zero x |
| PyToBeRemoved.TemporaryClass.constructor | python/to_be_removed.py:31-32 | the message "This class will be removed" |
| PyToBeRemoved.TemporaryClass.GetMessage | python/to_be_removed.py:34-36 | returns the stored message and changes nothing |
| Sorting.SortBySorted | python/complex_functions.py:101-112 | the stable sort's result is ordered by key in the requested direction |
| Sorting.SortByStableAll | python/edge_cases.py:82-92 | records with equal keys keep their relative order |
| SeqSpecs.PalindromeIffHalfMirror | java/BasicFunctions.java:95-106 | comparing the first half with the mirrored second half decides a palindrome |
| SeqSpecs.MergeStable | cpp/basic_functions.cpp:176-199 | every copy of each value comes through the merge: its count in the result is its count in a plus its count in b |
| SeqSpecs.SumFront | python/nested_functions.py:149-167 | a sum is the first element plus the sum of the rest |
| Text.StripIdempotent | python/renamed_functions.py:86 | stripping twice is stripping once |
| Text.FieldsAreRuns | go/basic_functions.go:192-199 | strings.Fields returns one field per run of non-space characters |
| Text.RepeatAt | python/signature_changes.py:68-79 | position p of the string repeated n times holds the character at p modulo the string's length |

## Left out

- python/large_function.py is not part of this model. It is a pipeline of file reading and writing, and its column-mapping block differs from the refactored version.
- Floating point:
  - the values of divide, power and calculate_average, the double findMax, calculateAverage and divide in C++, Go and Java, and Go CalculateStatistics;
  - calculate_statistics, calculate_field_statistics and extract_numeric_values;
  - Temperature, celsius_to_fahrenheit, and the true_percentage of process_data_enhanced;
  - the decimal branch of convert_value_if_numeric.
  Only the error cases of these functions are modelled.
- PyEdgeCases.LambdaWithDocstring and PyNested.CreatePowerFunction: a negative exponent gives the exact rational 1 / x^-y; the rounding of Python's float is not modelled.
- PyUtil.CalculateFactorial: CPython raises RecursionError from about n = 1000 (its default recursion limit); the model recurses without limit.
- PyRenamed.ComplexFunctionWithOldName: items are exact reals, so overflow of 2·item to infinity is not modelled.
- PyRefactored.ConvertValueIfNumeric: requires its argument not to be decimal text ("1.5"), because the float branch is not modelled. Only ASCII digits count as digits; Python's str.isdigit also accepts other Unicode digits.
- PyRefactored.ApplyFiltering: records must hold no decimal text, for the same reason.
- File and OS I/O: validate_inputs, the read_* and write_output_file functions, process_and_analyze_data, read_file_lazy, file_exists and the `__main__` blocks.
- Time, printing and logging: get_timestamp, timer_decorator, log_execution, Timer, LoggingContextManager, slow_function, and the logger call in complex_function_with_old_name.
- Library parsing: parse_date, extract_emails, parse_complex_string, and the key_value and json branches of parse_structured_data. Those two branches are represented only by an absent result.
- GoBasic.IsPalindrome: Go's unicode letter/digit and case tables are parameters, not modelled tables.
- Text.Lower and Text.Upper: case mapping is ASCII only; Python's and Java's Unicode case mapping is not modelled.
- JavaBasic.Clean and JavaBasic.IsPalindrome: `toLowerCase()` follows the default locale (in a Turkish locale "I" becomes dotless "ı"); the model lower-cases ASCII only, as the root locale does.
- CppBasic.IsPrime: computes `i * i` exactly; the C++ guard can overflow int for n near 2^31.
- CppBasic.Factorial: requires n <= 20, because a larger n overflows `long long` in the source (undefined behaviour).
- GoBasic.Factorial and JavaBasic.Factorial: require n below the largest value of the counter's type, because the source's `i <= n` loop never ends for that value.
- CppBasic.Add, CppBasic.Subtract and CppBasic.Multiply: require results that fit in int, because C++ signed overflow is undefined.
- PyComplex.DataProcessor.SortData, PyEdgeCases.SortBySecondItem: the TypeError message is not stated, because it depends on which pair of keys Python's sort compares first. List-valued keys are treated as not comparable, though Python compares lists element-wise.
- Dict key order is not modelled, since a dict is a map. Grouped results, where order matters, are sequences of groups in first-seen order.
- PyRefactoringDestination.Transform: elements of a nested list that are not dicts are dropped, as in the source. The type of a value that is neither dict nor list is not otherwise checked.
- PyRefactoringDestination.ProcessDataEnhanced: the numeric statistics and the advanced-statistics error branch are not modelled (floating point).
- `__str__`, `__repr__` and to_printable_format depend on Python's set and dict repr and are not modelled. TypeOf and ClassRepr stand in for `type(...).__name__`.
- The descriptor protocol: the `instance is None` branch of `__get__` is not modelled. TypedObject, which only declares three TypedProperty attributes, is not modelled either.
- PyLanguageFeatures.Memoized.Call: an exception raised by the wrapped function and recursion through the wrapper are not modelled. The key is one hashable value standing in for the args/kwargs string.
- Generators are eager: FibonacciGenerator returns the whole sequence, and InfiniteCounter yields one value per Next call.
- PyLanguageFeatures.Person.SetName: models the empty-string check only; other falsy values cannot occur with a string parameter.
- PyDocstring.FunctionWithGoogleDocstring: items and scale are integers.
- A Python tuple is modelled as a list value (args in function_with_args_kwargs, the pairs of sort_by_second_item).

## Findings

| source | as written | input that shows it | evidently intended | confidence | as-written member | corrected member |
|---|---|---|---|---|---|---|
| go/basic_functions.go:56 | the guard `i*i <= n` is computed in Go's 64-bit `int`; for i above 3037000499 the square wraps around, first to a negative number, so the guard holds again and the loop runs past the square root of n | n = 9223372036854775783 (2^63 - 25, a prime): at i = 3037000505 > √n the wrapped square is negative and the loop goes on; if it then reaches i + 2 = n it reports the prime composite | trial division that stops at the square root, true exactly for primes | not executed | GoBasic.IsPrime, GoBasic.GuardWrapsPastRoot | GoBasic.IsPrimeCorrected |
