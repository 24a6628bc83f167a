/**
 * The order in which the handler lists its example links, worked out on
 * the example words themselves.
 *
 * The sort is first traced on any fifteen words whose keys strictly
 * ascend in a known order (`SortFrom0` .. `SortFrom14`, one insertion
 * each), and then applied to the example words, whose keys do.
 *
 * The hand trace, the sequences nested fifteen deep, the `KeyStep<i>`
 * lemmas and the four `AdjacentFrom<i>` groups are there only to keep
 * each proof within the solver's budget: every step takes one word and
 * one comparison at a time. Read `ExampleWordsSorted` for the result.
 */
module ExampleOrder {
  import opened Text
  import opened Sorting
  import Charserver

  /** The example words in the order their links appear on every page. */
  const Ordered: seq<string> := [
    "black", "Braille", "cat", "chess", "circled", "digit", "dot", "Ethiopic",
    "face", "hexagram", "Malayalam", "mark", "operator", "Roman", "symbol"]

  /** Every key is smaller than every later one. */
  predicate KeysAscend(o: seq<string>) {
    forall i, j :: 0 <= i < j < |o| ==> Less(Key(o[i]), Key(o[j]))
  }

  /** One step of the sort, for a list written as a word followed by the rest. */
  lemma SortCons(x: string, s: seq<string>)
    ensures Sort([x] + s) == Insert(x, Sort(s))
  {
    assert ([x] + s)[0] == x;
    assert ([x] + s)[1..] == s;
  }

  /** A word with a larger key moves past the head. */
  lemma InsertPast(x: string, y: string, s: seq<string>)
    requires Less(Key(y), Key(x))
    ensures Insert(x, [y] + s) == [y] + Insert(x, s)
  {
    assert ([y] + s)[0] == y;
    assert ([y] + s)[1..] == s;
  }

  /** A word whose key is smaller stops in front of the head. */
  lemma InsertHere(x: string, y: string, s: seq<string>)
    requires Less(Key(x), Key(y))
    ensures Insert(x, [y] + s) == [x] + ([y] + s)
  {
    assert ([y] + s)[0] == y;
    LessAsymmetric(Key(x), Key(y));
  }

  /** Inserting into a one-word list. */
  lemma InsertOne(x: string, y: string)
    ensures Less(Key(y), Key(x)) ==> Insert(x, [y]) == [y] + [x]
    ensures Less(Key(x), Key(y)) ==> Insert(x, [y]) == [x] + [y]
  {
    LessIrreflexive(Key(x));
    if Less(Key(x), Key(y)) {
      LessAsymmetric(Key(x), Key(y));
    }
  }

  /** Keys compare at the first position where the upper-cased words differ. */
  lemma {:induction false} LessAt(a: string, b: string, n: nat)
    requires n < |a| && n < |b|
    requires forall i :: 0 <= i < n ==> UpperChar(a[i]) == UpperChar(b[i])
    requires UpperChar(a[n]) < UpperChar(b[n])
    ensures Less(Key(a), Key(b))
    decreases n
  {
    UpperAt(a, 0);
    UpperAt(b, 0);
    if n > 0 {
      LessAt(a[1..], b[1..], n - 1);
      assert Upper(a)[1..] == Upper(a[1..]);
      assert Upper(b)[1..] == Upper(b[1..]);
    }
  }


  /** `KeyStep<i>`: the keys of the `i`-th and next word of `Ordered` ascend. */
  lemma KeyStep0()
    ensures Less(Key(Ordered[0]), Key(Ordered[1]))
  {
    LessAt(Ordered[0], Ordered[1], 1);
  }

  lemma KeyStep1()
    ensures Less(Key(Ordered[1]), Key(Ordered[2]))
  {
    LessAt(Ordered[1], Ordered[2], 0);
  }

  lemma KeyStep2()
    ensures Less(Key(Ordered[2]), Key(Ordered[3]))
  {
    LessAt(Ordered[2], Ordered[3], 1);
  }

  lemma KeyStep3()
    ensures Less(Key(Ordered[3]), Key(Ordered[4]))
  {
    LessAt(Ordered[3], Ordered[4], 1);
  }

  lemma KeyStep4()
    ensures Less(Key(Ordered[4]), Key(Ordered[5]))
  {
    LessAt(Ordered[4], Ordered[5], 0);
  }

  lemma KeyStep5()
    ensures Less(Key(Ordered[5]), Key(Ordered[6]))
  {
    LessAt(Ordered[5], Ordered[6], 1);
  }

  lemma KeyStep6()
    ensures Less(Key(Ordered[6]), Key(Ordered[7]))
  {
    LessAt(Ordered[6], Ordered[7], 0);
  }

  lemma KeyStep7()
    ensures Less(Key(Ordered[7]), Key(Ordered[8]))
  {
    LessAt(Ordered[7], Ordered[8], 0);
  }

  lemma KeyStep8()
    ensures Less(Key(Ordered[8]), Key(Ordered[9]))
  {
    LessAt(Ordered[8], Ordered[9], 0);
  }

  lemma KeyStep9()
    ensures Less(Key(Ordered[9]), Key(Ordered[10]))
  {
    LessAt(Ordered[9], Ordered[10], 0);
  }

  lemma KeyStep10()
    ensures Less(Key(Ordered[10]), Key(Ordered[11]))
  {
    LessAt(Ordered[10], Ordered[11], 2);
  }

  lemma KeyStep11()
    ensures Less(Key(Ordered[11]), Key(Ordered[12]))
  {
    LessAt(Ordered[11], Ordered[12], 0);
  }

  lemma KeyStep12()
    ensures Less(Key(Ordered[12]), Key(Ordered[13]))
  {
    LessAt(Ordered[12], Ordered[13], 0);
  }

  lemma KeyStep13()
    ensures Less(Key(Ordered[13]), Key(Ordered[14]))
  {
    LessAt(Ordered[13], Ordered[14], 0);
  }

  /** Neighbours in `Ordered` have strictly ascending keys. */
  lemma Adjacent(i: nat)
    requires i + 1 < |Ordered|
    ensures Less(Key(Ordered[i]), Key(Ordered[i + 1]))
  {
    if i < 4 {
      AdjacentFrom0(i);
    } else if i < 7 {
      AdjacentFrom4(i);
    } else if i < 11 {
      AdjacentFrom7(i);
    } else {
      AdjacentFrom11(i);
    }
  }

  lemma AdjacentFrom0(i: nat)
    requires 0 <= i < 4
    ensures Less(Key(Ordered[i]), Key(Ordered[i + 1]))
  {
    if i == 0 {
      KeyStep0();
    } else if i == 1 {
      KeyStep1();
    } else if i == 2 {
      KeyStep2();
    } else if i == 3 {
      KeyStep3();
    }
  }

  lemma AdjacentFrom4(i: nat)
    requires 4 <= i < 7
    ensures Less(Key(Ordered[i]), Key(Ordered[i + 1]))
  {
    if i == 4 {
      KeyStep4();
    } else if i == 5 {
      KeyStep5();
    } else if i == 6 {
      KeyStep6();
    }
  }

  lemma AdjacentFrom7(i: nat)
    requires 7 <= i < 11
    ensures Less(Key(Ordered[i]), Key(Ordered[i + 1]))
  {
    if i == 7 {
      KeyStep7();
    } else if i == 8 {
      KeyStep8();
    } else if i == 9 {
      KeyStep9();
    } else if i == 10 {
      KeyStep10();
    }
  }

  lemma AdjacentFrom11(i: nat)
    requires 11 <= i < 14
    ensures Less(Key(Ordered[i]), Key(Ordered[i + 1]))
  {
    if i == 11 {
      KeyStep11();
    } else if i == 12 {
      KeyStep12();
    } else if i == 13 {
      KeyStep13();
    }
  }

  lemma {:induction false} Before(i: nat, j: nat)
    requires i < j < |Ordered|
    ensures Less(Key(Ordered[i]), Key(Ordered[j]))
    decreases j - i
  {
    Adjacent(j - 1);
    if i < j - 1 {
      Before(i, j - 1);
      LessTransitive(Key(Ordered[i]), Key(Ordered[j - 1]), Key(Ordered[j]));
    }
  }

  /** The keys of `Ordered` strictly ascend. */
  lemma OrderedKeysAscend()
    ensures KeysAscend(Ordered)
  {
    forall i, j | 0 <= i < j < |Ordered|
      ensures Less(Key(Ordered[i]), Key(Ordered[j]))
    {
      Before(i, j);
    }
  }

  /** `SortFrom<i>`: the example words from position `i` on, each written
      as its place in an ascending `o`, sort into those places in order. */
  lemma SortFrom14(o: seq<string>)
    requires |o| == 15 && KeysAscend(o)
    ensures Sort([o[9]]) == [o[9]]
  {
    SortCons(o[9], []);
    assert [o[9]] + [] == [o[9]];
  }

  lemma SortFrom13(o: seq<string>)
    requires |o| == 15 && KeysAscend(o)
    ensures Sort([o[1]] + [o[9]]) == [o[1]] + [o[9]]
  {
    SortFrom14(o);
    InsertOne(o[1], o[9]);
    SortCons(o[1], [o[9]]);
  }

  lemma SortFrom12(o: seq<string>)
    requires |o| == 15 && KeysAscend(o)
    ensures Sort([o[12]] + ([o[1]] + [o[9]])) == [o[1]] + ([o[9]] + [o[12]])
  {
    SortFrom13(o);
    InsertPast(o[12], o[1], [o[9]]);
    InsertOne(o[12], o[9]);
    SortCons(o[12], [o[1]] + [o[9]]);
  }

  lemma SortFrom11(o: seq<string>)
    requires |o| == 15 && KeysAscend(o)
    ensures Sort([o[6]] + ([o[12]] + ([o[1]] + [o[9]]))) == [o[1]] + ([o[6]] + ([o[9]] + [o[12]]))
  {
    SortFrom12(o);
    InsertPast(o[6], o[1], [o[9]] + [o[12]]);
    InsertHere(o[6], o[9], [o[12]]);
    SortCons(o[6], [o[12]] + ([o[1]] + [o[9]]));
  }

  lemma SortFrom10(o: seq<string>)
    requires |o| == 15 && KeysAscend(o)
    ensures Sort([o[14]] + ([o[6]] + ([o[12]] + ([o[1]] + [o[9]])))) == [o[1]] + ([o[6]] + ([o[9]] + ([o[12]] + [o[14]])))
  {
    SortFrom11(o);
    InsertPast(o[14], o[1], [o[6]] + ([o[9]] + [o[12]]));
    InsertPast(o[14], o[6], [o[9]] + [o[12]]);
    InsertPast(o[14], o[9], [o[12]]);
    InsertOne(o[14], o[12]);
    SortCons(o[14], [o[6]] + ([o[12]] + ([o[1]] + [o[9]])));
  }

  lemma SortFrom9(o: seq<string>)
    requires |o| == 15 && KeysAscend(o)
    ensures Sort([o[11]] + ([o[14]] + ([o[6]] + ([o[12]] + ([o[1]] + [o[9]]))))) == [o[1]] + ([o[6]] + ([o[9]] + ([o[11]] + ([o[12]] + [o[14]]))))
  {
    SortFrom10(o);
    InsertPast(o[11], o[1], [o[6]] + ([o[9]] + ([o[12]] + [o[14]])));
    InsertPast(o[11], o[6], [o[9]] + ([o[12]] + [o[14]]));
    InsertPast(o[11], o[9], [o[12]] + [o[14]]);
    InsertHere(o[11], o[12], [o[14]]);
    SortCons(o[11], [o[14]] + ([o[6]] + ([o[12]] + ([o[1]] + [o[9]]))));
  }

  lemma SortFrom8(o: seq<string>)
    requires |o| == 15 && KeysAscend(o)
    ensures Sort([o[0]] + ([o[11]] + ([o[14]] + ([o[6]] + ([o[12]] + ([o[1]] + [o[9]])))))) == [o[0]] + ([o[1]] + ([o[6]] + ([o[9]] + ([o[11]] + ([o[12]] + [o[14]])))))
  {
    SortFrom9(o);
    InsertHere(o[0], o[1], [o[6]] + ([o[9]] + ([o[11]] + ([o[12]] + [o[14]]))));
    SortCons(o[0], [o[11]] + ([o[14]] + ([o[6]] + ([o[12]] + ([o[1]] + [o[9]])))));
  }

  lemma SortFrom7(o: seq<string>)
    requires |o| == 15 && KeysAscend(o)
    ensures Sort([o[7]] + ([o[0]] + ([o[11]] + ([o[14]] + ([o[6]] + ([o[12]] + ([o[1]] + [o[9]]))))))) == [o[0]] + ([o[1]] + ([o[6]] + ([o[7]] + ([o[9]] + ([o[11]] + ([o[12]] + [o[14]]))))))
  {
    SortFrom8(o);
    InsertPast(o[7], o[0], [o[1]] + ([o[6]] + ([o[9]] + ([o[11]] + ([o[12]] + [o[14]])))));
    InsertPast(o[7], o[1], [o[6]] + ([o[9]] + ([o[11]] + ([o[12]] + [o[14]]))));
    InsertPast(o[7], o[6], [o[9]] + ([o[11]] + ([o[12]] + [o[14]])));
    InsertHere(o[7], o[9], [o[11]] + ([o[12]] + [o[14]]));
    SortCons(o[7], [o[0]] + ([o[11]] + ([o[14]] + ([o[6]] + ([o[12]] + ([o[1]] + [o[9]]))))));
  }

  lemma SortFrom6(o: seq<string>)
    requires |o| == 15 && KeysAscend(o)
    ensures Sort([o[8]] + ([o[7]] + ([o[0]] + ([o[11]] + ([o[14]] + ([o[6]] + ([o[12]] + ([o[1]] + [o[9]])))))))) == [o[0]] + ([o[1]] + ([o[6]] + ([o[7]] + ([o[8]] + ([o[9]] + ([o[11]] + ([o[12]] + [o[14]])))))))
  {
    SortFrom7(o);
    InsertPast(o[8], o[0], [o[1]] + ([o[6]] + ([o[7]] + ([o[9]] + ([o[11]] + ([o[12]] + [o[14]]))))));
    InsertPast(o[8], o[1], [o[6]] + ([o[7]] + ([o[9]] + ([o[11]] + ([o[12]] + [o[14]])))));
    InsertPast(o[8], o[6], [o[7]] + ([o[9]] + ([o[11]] + ([o[12]] + [o[14]]))));
    InsertPast(o[8], o[7], [o[9]] + ([o[11]] + ([o[12]] + [o[14]])));
    InsertHere(o[8], o[9], [o[11]] + ([o[12]] + [o[14]]));
    SortCons(o[8], [o[7]] + ([o[0]] + ([o[11]] + ([o[14]] + ([o[6]] + ([o[12]] + ([o[1]] + [o[9]])))))));
  }

  lemma SortFrom5(o: seq<string>)
    requires |o| == 15 && KeysAscend(o)
    ensures Sort([o[13]] + ([o[8]] + ([o[7]] + ([o[0]] + ([o[11]] + ([o[14]] + ([o[6]] + ([o[12]] + ([o[1]] + [o[9]]))))))))) == [o[0]] + ([o[1]] + ([o[6]] + ([o[7]] + ([o[8]] + ([o[9]] + ([o[11]] + ([o[12]] + ([o[13]] + [o[14]]))))))))
  {
    SortFrom6(o);
    InsertPast(o[13], o[0], [o[1]] + ([o[6]] + ([o[7]] + ([o[8]] + ([o[9]] + ([o[11]] + ([o[12]] + [o[14]])))))));
    InsertPast(o[13], o[1], [o[6]] + ([o[7]] + ([o[8]] + ([o[9]] + ([o[11]] + ([o[12]] + [o[14]]))))));
    InsertPast(o[13], o[6], [o[7]] + ([o[8]] + ([o[9]] + ([o[11]] + ([o[12]] + [o[14]])))));
    InsertPast(o[13], o[7], [o[8]] + ([o[9]] + ([o[11]] + ([o[12]] + [o[14]]))));
    InsertPast(o[13], o[8], [o[9]] + ([o[11]] + ([o[12]] + [o[14]])));
    InsertPast(o[13], o[9], [o[11]] + ([o[12]] + [o[14]]));
    InsertPast(o[13], o[11], [o[12]] + [o[14]]);
    InsertPast(o[13], o[12], [o[14]]);
    InsertOne(o[13], o[14]);
    SortCons(o[13], [o[8]] + ([o[7]] + ([o[0]] + ([o[11]] + ([o[14]] + ([o[6]] + ([o[12]] + ([o[1]] + [o[9]]))))))));
  }

  lemma SortFrom4(o: seq<string>)
    requires |o| == 15 && KeysAscend(o)
    ensures Sort([o[5]] + ([o[13]] + ([o[8]] + ([o[7]] + ([o[0]] + ([o[11]] + ([o[14]] + ([o[6]] + ([o[12]] + ([o[1]] + [o[9]])))))))))) == [o[0]] + ([o[1]] + ([o[5]] + ([o[6]] + ([o[7]] + ([o[8]] + ([o[9]] + ([o[11]] + ([o[12]] + ([o[13]] + [o[14]])))))))))
  {
    SortFrom5(o);
    InsertPast(o[5], o[0], [o[1]] + ([o[6]] + ([o[7]] + ([o[8]] + ([o[9]] + ([o[11]] + ([o[12]] + ([o[13]] + [o[14]]))))))));
    InsertPast(o[5], o[1], [o[6]] + ([o[7]] + ([o[8]] + ([o[9]] + ([o[11]] + ([o[12]] + ([o[13]] + [o[14]])))))));
    InsertHere(o[5], o[6], [o[7]] + ([o[8]] + ([o[9]] + ([o[11]] + ([o[12]] + ([o[13]] + [o[14]]))))));
    SortCons(o[5], [o[13]] + ([o[8]] + ([o[7]] + ([o[0]] + ([o[11]] + ([o[14]] + ([o[6]] + ([o[12]] + ([o[1]] + [o[9]])))))))));
  }

  lemma SortFrom3(o: seq<string>)
    requires |o| == 15 && KeysAscend(o)
    ensures Sort([o[10]] + ([o[5]] + ([o[13]] + ([o[8]] + ([o[7]] + ([o[0]] + ([o[11]] + ([o[14]] + ([o[6]] + ([o[12]] + ([o[1]] + [o[9]]))))))))))) == [o[0]] + ([o[1]] + ([o[5]] + ([o[6]] + ([o[7]] + ([o[8]] + ([o[9]] + ([o[10]] + ([o[11]] + ([o[12]] + ([o[13]] + [o[14]]))))))))))
  {
    SortFrom4(o);
    InsertPast(o[10], o[0], [o[1]] + ([o[5]] + ([o[6]] + ([o[7]] + ([o[8]] + ([o[9]] + ([o[11]] + ([o[12]] + ([o[13]] + [o[14]])))))))));
    InsertPast(o[10], o[1], [o[5]] + ([o[6]] + ([o[7]] + ([o[8]] + ([o[9]] + ([o[11]] + ([o[12]] + ([o[13]] + [o[14]]))))))));
    InsertPast(o[10], o[5], [o[6]] + ([o[7]] + ([o[8]] + ([o[9]] + ([o[11]] + ([o[12]] + ([o[13]] + [o[14]])))))));
    InsertPast(o[10], o[6], [o[7]] + ([o[8]] + ([o[9]] + ([o[11]] + ([o[12]] + ([o[13]] + [o[14]]))))));
    InsertPast(o[10], o[7], [o[8]] + ([o[9]] + ([o[11]] + ([o[12]] + ([o[13]] + [o[14]])))));
    InsertPast(o[10], o[8], [o[9]] + ([o[11]] + ([o[12]] + ([o[13]] + [o[14]]))));
    InsertPast(o[10], o[9], [o[11]] + ([o[12]] + ([o[13]] + [o[14]])));
    InsertHere(o[10], o[11], [o[12]] + ([o[13]] + [o[14]]));
    SortCons(o[10], [o[5]] + ([o[13]] + ([o[8]] + ([o[7]] + ([o[0]] + ([o[11]] + ([o[14]] + ([o[6]] + ([o[12]] + ([o[1]] + [o[9]]))))))))));
  }

  lemma SortFrom2(o: seq<string>)
    requires |o| == 15 && KeysAscend(o)
    ensures Sort([o[4]] + ([o[10]] + ([o[5]] + ([o[13]] + ([o[8]] + ([o[7]] + ([o[0]] + ([o[11]] + ([o[14]] + ([o[6]] + ([o[12]] + ([o[1]] + [o[9]])))))))))))) == [o[0]] + ([o[1]] + ([o[4]] + ([o[5]] + ([o[6]] + ([o[7]] + ([o[8]] + ([o[9]] + ([o[10]] + ([o[11]] + ([o[12]] + ([o[13]] + [o[14]])))))))))))
  {
    SortFrom3(o);
    InsertPast(o[4], o[0], [o[1]] + ([o[5]] + ([o[6]] + ([o[7]] + ([o[8]] + ([o[9]] + ([o[10]] + ([o[11]] + ([o[12]] + ([o[13]] + [o[14]]))))))))));
    InsertPast(o[4], o[1], [o[5]] + ([o[6]] + ([o[7]] + ([o[8]] + ([o[9]] + ([o[10]] + ([o[11]] + ([o[12]] + ([o[13]] + [o[14]])))))))));
    InsertHere(o[4], o[5], [o[6]] + ([o[7]] + ([o[8]] + ([o[9]] + ([o[10]] + ([o[11]] + ([o[12]] + ([o[13]] + [o[14]]))))))));
    SortCons(o[4], [o[10]] + ([o[5]] + ([o[13]] + ([o[8]] + ([o[7]] + ([o[0]] + ([o[11]] + ([o[14]] + ([o[6]] + ([o[12]] + ([o[1]] + [o[9]])))))))))));
  }

  lemma SortFrom1(o: seq<string>)
    requires |o| == 15 && KeysAscend(o)
    ensures Sort([o[2]] + ([o[4]] + ([o[10]] + ([o[5]] + ([o[13]] + ([o[8]] + ([o[7]] + ([o[0]] + ([o[11]] + ([o[14]] + ([o[6]] + ([o[12]] + ([o[1]] + [o[9]]))))))))))))) == [o[0]] + ([o[1]] + ([o[2]] + ([o[4]] + ([o[5]] + ([o[6]] + ([o[7]] + ([o[8]] + ([o[9]] + ([o[10]] + ([o[11]] + ([o[12]] + ([o[13]] + [o[14]]))))))))))))
  {
    SortFrom2(o);
    InsertPast(o[2], o[0], [o[1]] + ([o[4]] + ([o[5]] + ([o[6]] + ([o[7]] + ([o[8]] + ([o[9]] + ([o[10]] + ([o[11]] + ([o[12]] + ([o[13]] + [o[14]])))))))))));
    InsertPast(o[2], o[1], [o[4]] + ([o[5]] + ([o[6]] + ([o[7]] + ([o[8]] + ([o[9]] + ([o[10]] + ([o[11]] + ([o[12]] + ([o[13]] + [o[14]]))))))))));
    InsertHere(o[2], o[4], [o[5]] + ([o[6]] + ([o[7]] + ([o[8]] + ([o[9]] + ([o[10]] + ([o[11]] + ([o[12]] + ([o[13]] + [o[14]])))))))));
    SortCons(o[2], [o[4]] + ([o[10]] + ([o[5]] + ([o[13]] + ([o[8]] + ([o[7]] + ([o[0]] + ([o[11]] + ([o[14]] + ([o[6]] + ([o[12]] + ([o[1]] + [o[9]]))))))))))));
  }

  lemma SortFrom0(o: seq<string>)
    requires |o| == 15 && KeysAscend(o)
    ensures Sort([o[3]] + ([o[2]] + ([o[4]] + ([o[10]] + ([o[5]] + ([o[13]] + ([o[8]] + ([o[7]] + ([o[0]] + ([o[11]] + ([o[14]] + ([o[6]] + ([o[12]] + ([o[1]] + [o[9]])))))))))))))) == [o[0]] + ([o[1]] + ([o[2]] + ([o[3]] + ([o[4]] + ([o[5]] + ([o[6]] + ([o[7]] + ([o[8]] + ([o[9]] + ([o[10]] + ([o[11]] + ([o[12]] + ([o[13]] + [o[14]])))))))))))))
  {
    SortFrom1(o);
    InsertPast(o[3], o[0], [o[1]] + ([o[2]] + ([o[4]] + ([o[5]] + ([o[6]] + ([o[7]] + ([o[8]] + ([o[9]] + ([o[10]] + ([o[11]] + ([o[12]] + ([o[13]] + [o[14]]))))))))))));
    InsertPast(o[3], o[1], [o[2]] + ([o[4]] + ([o[5]] + ([o[6]] + ([o[7]] + ([o[8]] + ([o[9]] + ([o[10]] + ([o[11]] + ([o[12]] + ([o[13]] + [o[14]])))))))))));
    InsertPast(o[3], o[2], [o[4]] + ([o[5]] + ([o[6]] + ([o[7]] + ([o[8]] + ([o[9]] + ([o[10]] + ([o[11]] + ([o[12]] + ([o[13]] + [o[14]]))))))))));
    InsertHere(o[3], o[4], [o[5]] + ([o[6]] + ([o[7]] + ([o[8]] + ([o[9]] + ([o[10]] + ([o[11]] + ([o[12]] + ([o[13]] + [o[14]])))))))));
    SortCons(o[3], [o[2]] + ([o[4]] + ([o[10]] + ([o[5]] + ([o[13]] + ([o[8]] + ([o[7]] + ([o[0]] + ([o[11]] + ([o[14]] + ([o[6]] + ([o[12]] + ([o[1]] + [o[9]])))))))))))));
  }

  /** The example words sort into `Ordered`: case plays no part, so
      `Braille` follows `black` and `Ethiopic` follows `dot`. */
  lemma ExampleWordsSorted()
    ensures Charserver.SortedExampleWords() == Ordered
  {
    OrderedKeysAscend();
    SortFrom0(Ordered);
    ExampleWordsByRank();
    OrderedByRank();
  }

  /** The example words, each written as its place in `Ordered`. */
  lemma ExampleWordsByRank()
    ensures var o := Ordered; Charserver.ExampleWords == [o[3]] + ([o[2]] + ([o[4]] + ([o[10]] + ([o[5]] + ([o[13]] + ([o[8]] + ([o[7]] + ([o[0]] + ([o[11]] + ([o[14]] + ([o[6]] + ([o[12]] + ([o[1]] + [o[9]])))))))))))))
  {
  }

  lemma OrderedByRank()
    ensures var o := Ordered; o == [o[0]] + ([o[1]] + ([o[2]] + ([o[3]] + ([o[4]] + ([o[5]] + ([o[6]] + ([o[7]] + ([o[8]] + ([o[9]] + ([o[10]] + ([o[11]] + ([o[12]] + ([o[13]] + [o[14]])))))))))))))
  {
  }

  /** Words with strictly ascending keys are all different. */
  lemma AscendingDistinct(o: seq<string>, i: nat, j: nat)
    requires KeysAscend(o) && i < j < |o|
    ensures o[i] != o[j]
  {
    LessIrreflexive(Key(o[i]));
  }

  /** A word occurring at one place only of `s` is counted once. */
  lemma {:induction false} CountOnce(s: seq<string>, k: nat)
    requires k < |s|
    requires forall i :: 0 <= i < |s| && i != k ==> s[i] != s[k]
    ensures multiset(s)[s[k]] == 1
    decreases |s|
  {
    HeadTail(s);
    assert multiset(s) == multiset{s[0]} + multiset(s[1..]);
    if k == 0 {
      assert s[0] !in s[1..];
    } else {
      forall i | 0 <= i < |s[1..]| && i != k - 1 ensures s[1..][i] != s[1..][k - 1] {
        assert s[1..][i] == s[i + 1];
      }
      CountOnce(s[1..], k - 1);
      assert s[0] != s[k];
    }
  }

  /** In a list with strictly ascending keys every word occurs once. */
  lemma AscendingOnce(o: seq<string>)
    requires KeysAscend(o)
    ensures forall w :: w in o ==> multiset(o)[w] == 1
  {
    forall w | w in o
      ensures multiset(o)[w] == 1
    {
      var k :| 0 <= k < |o| && o[k] == w;
      forall i | 0 <= i < |o| && i != k ensures o[i] != o[k] {
        if i < k { AscendingDistinct(o, i, k); } else { AscendingDistinct(o, k, i); }
      }
      CountOnce(o, k);
    }
  }

  /** The links on every page: one per example word, in the order of
      `Ordered`, separated by a comma and a space. */
  lemma LinksInOrder()
    ensures Charserver.Links() == Join(Charserver.LinkList(Ordered), ", ")
  {
    ExampleWordsSorted();
  }

  /** Each example word is linked exactly once. */
  lemma ExampleWordsLinkedOnce()
    ensures forall w :: w in Charserver.ExampleWords ==>
      multiset(Charserver.SortedExampleWords())[w] == 1
  {
    ExampleWordsSorted();
    OrderedKeysAscend();
    SortedOnce(Charserver.ExampleWords, Ordered);
  }

  /** A list that sorts into strictly ascending keys holds each word once. */
  lemma SortedOnce(s: seq<string>, o: seq<string>)
    requires Sort(s) == o && KeysAscend(o)
    ensures forall w :: w in s ==> multiset(Sort(s))[w] == 1
  {
    SortPermutes(s);
    AscendingOnce(o);
    forall w | w in s ensures multiset(Sort(s))[w] == 1 {
      assert w in multiset(s);
      assert w in multiset(o);
    }
  }
}
