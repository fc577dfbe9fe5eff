/** Bit operations on register words. */
module Words {
  function And(w: bv32, m: bv32): bv32 {
    w & m
  }

  function Or(w: bv32, m: bv32): bv32 {
    w | m
  }

  function Not(w: bv32): bv32 {
    !w
  }

  function Field(w: bv32, mask: bv32): bv32 {
    And(w, mask)
  }

  lemma FieldTwice(w: bv32, mask: bv32)
    ensures Field(Field(w, mask), mask) == Field(w, mask)
  {
  }

  lemma AndAnd(w: bv32, m: bv32, k: bv32)
    ensures And(And(w, m), k) == And(w, And(m, k))
  {
  }

  lemma AndOr(w: bv32, m: bv32, k: bv32)
    ensures And(Or(w, m), k) == Or(And(w, k), And(m, k))
  {
  }

  lemma Zeros(a: bv32, b: bv32)
    ensures And(a, 0) == 0 && Or(a, 0) == a && Or(0, a) == a && (Or(a, b) == 0 <==> a == 0 && b == 0)
  {
  }

  lemma FieldAnd(w: bv32, m: bv32, mask: bv32)
    requires And(m, mask) == mask || And(m, mask) == 0
    ensures Field(And(w, m), mask) == if And(m, mask) == 0 then 0 else Field(w, mask)
  {
    AndAnd(w, m, mask);
    Zeros(w, w);
    hide And;
  }

  lemma FieldOr(w: bv32, m: bv32, mask: bv32)
    requires Field(m, mask) == 0 || Field(w, mask) == 0
    ensures Field(Or(w, m), mask) == if Field(m, mask) == 0 then Field(w, mask) else Field(m, mask)
  {
    AndOr(w, m, mask);
    Zeros(And(w, mask), And(m, mask));
    Zeros(And(m, mask), And(w, mask));
    hide And, Or;
  }

  lemma FlagOr(w: bv32, m: bv32, mask: bv32)
    ensures Field(Or(w, m), mask) != 0 <==> Field(w, mask) != 0 || Field(m, mask) != 0
  {
    AndOr(w, m, mask);
    Zeros(And(w, mask), And(m, mask));
    hide And, Or;
  }
}
