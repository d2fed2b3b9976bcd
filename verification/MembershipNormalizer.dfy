/** Normalisation of a complete company binding response; canonical decimals are their numbers. */
module MembershipNormalizer {
  import opened Common
  import opened Sequences
  import opened Sorting
  import opened Text
  import opened ProjectionRecords

  const MAX_SIGNED_INT32: int := 2_147_483_647

  /** A value as the connector hands it over. */
  datatype RawValue =
    | RawNull
    | RawBool(flag: bool)
    | RawInt(number: int)
    | RawFloat
    | RawText(text: string)
    | RawOther

  datatype Payload = Payload(companyId: RawValue, sort: RawValue, roleId: RawValue, isPrimary: RawValue)

  datatype Field = SubjectField | CompanyField | RoleField

  /** The messages the normaliser raises, with the field a positive decimal was wanted for. */
  datatype Rejection =
    | NotAPositiveDecimal(field: Field)
    | NotASort
    | SortOutOfRange
    | NotAFlag
    | ConflictingDuplicate
    | TwoPrimaries
    | ConstructorRejected

  // ----- Single values -----

  /** An integer, or text that strips to digits. */
  function Number(value: RawValue): Option<int> {
    match value
    case RawInt(n) => Some(n)
    case RawText(text) =>
      (match ParseDecimal(Strip(text))
       case Some(n) => Some(n)
       case None => None)
    case _ => None
  }

  function PositiveDecimal(value: RawValue, field: Field): (r: Result<nat, Rejection>)
    ensures r.Ok? ==> r.value >= 1
    ensures r.Err? ==> r.error == NotAPositiveDecimal(field)
  {
    match Number(value)
    case Some(n) => if n < 1 then Err(NotAPositiveDecimal(field)) else Ok(n)
    case None => Err(NotAPositiveDecimal(field))
  }

  predicate IsMissing(value: RawValue) {
    value == RawNull || (value.RawText? && IsBlank(value.text))
  }

  function OptionalPositiveDecimal(value: RawValue, field: Field): (r: Result<Option<nat>, Rejection>)
    ensures r.Ok? && r.value.Some? ==> r.value.value >= 1
    ensures r.Err? ==> r.error == NotAPositiveDecimal(field)
  {
    if IsMissing(value) then Ok(None)
    else
      match PositiveDecimal(value, field)
      case Ok(n) => Ok(Some(n))
      case Err(e) => Err(e)
  }

  function OptionalSort(value: RawValue): (r: Result<Option<int>, Rejection>)
    ensures r.Ok? && r.value.Some? ==> 0 <= r.value.value <= MAX_SIGNED_INT32
    ensures r.Err? ==> r.error in {NotASort, SortOutOfRange}
  {
    if IsMissing(value) then Ok(None)
    else
      match Number(value)
      case Some(n) => if n < 0 || n > MAX_SIGNED_INT32 then Err(SortOutOfRange) else Ok(Some(n))
      case None => Err(NotASort)
  }

  function PrimaryFlag(value: RawValue): (r: Result<bool, Rejection>)
    ensures r.Err? ==> r.error == NotAFlag
  {
    match value
    case RawBool(flag) => Ok(flag)
    case RawInt(n) => if n == 0 || n == 1 then Ok(n == 1) else Err(NotAFlag)
    case RawText(text) =>
      if text == "Y" || text == "1" then Ok(true)
      else if text == "N" || text == "0" then Ok(false)
      else Err(NotAFlag)
    case _ => Err(NotAFlag)
  }

  function BindingOf(p: Payload): (r: Result<Binding, Rejection>)
    ensures r.Ok? ==> BindingInRange(r.value)
    ensures r.Err? ==> r.error !in {ConflictingDuplicate, TwoPrimaries, ConstructorRejected}
    ensures r.Err? ==> r.error != NotAPositiveDecimal(SubjectField)
  {
    match PositiveDecimal(p.companyId, CompanyField)
    case Err(e) => Err(e)
    case Ok(companyId) =>
      match OptionalSort(p.sort)
      case Err(e) => Err(e)
      case Ok(sort) =>
        match OptionalPositiveDecimal(p.roleId, RoleField)
        case Err(e) => Err(e)
        case Ok(roleId) =>
          match PrimaryFlag(p.isPrimary)
          case Err(e) => Err(e)
          case Ok(primary) => Ok(Binding(companyId, sort, roleId, primary))
  }

  // ----- What a payload says -----

  /** The integer itself, or its digits between whitespace, leading zeros allowed. */
  ghost predicate SaysNumber(value: RawValue, n: int) {
    || value == RawInt(n)
    || (value.RawText? && exists digits :: IsNumeral(digits) && Padded(value.text, digits) && DigitsValue(digits) == n)
  }

  predicate IsNumeral(digits: string) {
    digits != [] && AllDigits(digits)
  }

  ghost predicate SaysNothing(value: RawValue) {
    value == RawNull || (value.RawText? && AllSpace(value.text))
  }

  predicate SaysPrimary(value: RawValue) {
    value in {RawBool(true), RawInt(1), RawText("1"), RawText("Y")}
  }

  predicate SaysNotPrimary(value: RawValue) {
    value in {RawBool(false), RawInt(0), RawText("0"), RawText("N")}
  }

  ghost predicate SaysSort(value: RawValue, sort: Option<int>) {
    if SaysNothing(value) then sort == None
    else sort.Some? && SaysNumber(value, sort.value) && 0 <= sort.value <= MAX_SIGNED_INT32
  }

  ghost predicate SaysRole(value: RawValue, role: Option<nat>) {
    if SaysNothing(value) then role == None else role.Some? && SaysNumber(value, role.value) && role.value >= 1
  }

  /** The payload says the binding, field by field. */
  ghost predicate Says(p: Payload, b: Binding) {
    && SaysNumber(p.companyId, b.companyId) && b.companyId >= 1
    && SaysSort(p.sort, b.sort) && SaysRole(p.roleId, b.roleId)
    && (if b.isPrimary then SaysPrimary(p.isPrimary) else SaysNotPrimary(p.isPrimary))
  }

  lemma NumeralHasNoSpace(digits: string)
    requires IsNumeral(digits)
    ensures !SpaceOutside(digits)
  {
    assert IsDigit(digits[0]) && IsDigit(digits[|digits| - 1]);
  }

  lemma NumberIsSaid(value: RawValue, n: int)
    ensures Number(value) == Some(n) <==> SaysNumber(value, n)
  {
    if value.RawText? {
      var core := Strip(value.text);
      if Number(value) == Some(n) {
        StripIsInside(value.text);
        assert IsNumeral(core) && Padded(value.text, core);
      }
      if digits :| IsNumeral(digits) && Padded(value.text, digits) && DigitsValue(digits) == n {
        NumeralHasNoSpace(digits);
        StripExactly(value.text, digits);
      }
    }
  }

  lemma NothingIsMissing(value: RawValue)
    ensures IsMissing(value) <==> SaysNothing(value)
  {
    if value.RawText? {
      BlankIsSpace(value.text);
    }
  }

  lemma SortIsSaid(value: RawValue)
    ensures forall sort :: OptionalSort(value) == Ok(sort) <==> SaysSort(value, sort)
    ensures OptionalSort(value) == Err(NotASort) <==> !SaysNothing(value) && forall n :: !SaysNumber(value, n)
  {
    NothingIsMissing(value);
    forall n
      ensures Number(value) == Some(n) <==> SaysNumber(value, n)
    {
      NumberIsSaid(value, n);
    }
  }

  lemma DecimalIsSaid(value: RawValue, field: Field)
    ensures forall n :: PositiveDecimal(value, field) == Ok(n) <==> SaysNumber(value, n) && n >= 1
    ensures forall role :: OptionalPositiveDecimal(value, field) == Ok(role) <==> SaysRole(value, role)
  {
    NothingIsMissing(value);
    forall n
      ensures Number(value) == Some(n) <==> SaysNumber(value, n)
    {
      NumberIsSaid(value, n);
    }
  }

  lemma FlagIsSaid(value: RawValue)
    ensures PrimaryFlag(value) == Ok(true) <==> SaysPrimary(value)
    ensures PrimaryFlag(value) == Ok(false) <==> SaysNotPrimary(value)
  {
  }

  /** A binding is read from a payload exactly when the payload says it. */
  lemma BindingIsSaid(p: Payload, b: Binding)
    ensures BindingOf(p) == Ok(b) <==> Says(p, b)
  {
    DecimalIsSaid(p.companyId, CompanyField);
    SortIsSaid(p.sort);
    DecimalIsSaid(p.roleId, RoleField);
    FlagIsSaid(p.isPrimary);
  }

  /** The message names the first field, in the order of the record, that says nothing admissible. */
  lemma FaultNamesTheFirstField(p: Payload)
    ensures var company := exists n: nat :: n >= 1 && SaysNumber(p.companyId, n);
            var sort := exists s :: SaysSort(p.sort, s);
            var role := exists r :: SaysRole(p.roleId, r);
            var number := exists n :: SaysNumber(p.sort, n);
            && (BindingOf(p) == Err(NotAPositiveDecimal(CompanyField)) <==> !company)
            && (BindingOf(p) == Err(NotASort) <==> company && !sort && !number)
            && (BindingOf(p) == Err(SortOutOfRange) <==> company && !sort && number)
            && (BindingOf(p) == Err(NotAPositiveDecimal(RoleField)) <==> company && sort && !role)
            && (BindingOf(p) == Err(NotAFlag) <==>
                  company && sort && role && !SaysPrimary(p.isPrimary) && !SaysNotPrimary(p.isPrimary))
  {
    DecimalIsSaid(p.companyId, CompanyField);
    SortIsSaid(p.sort);
    DecimalIsSaid(p.roleId, RoleField);
    FlagIsSaid(p.isPrimary);
    SomethingIsSaid(p);
  }

  lemma SomethingIsSaid(p: Payload)
    ensures PositiveDecimal(p.companyId, CompanyField).Ok? <==> exists n: nat :: n >= 1 && SaysNumber(p.companyId, n)
    ensures OptionalSort(p.sort).Ok? <==> exists s :: SaysSort(p.sort, s)
    ensures OptionalPositiveDecimal(p.roleId, RoleField).Ok? <==> exists r :: SaysRole(p.roleId, r)
    ensures OptionalSort(p.sort) == Err(NotASort) ==> forall n :: !SaysNumber(p.sort, n)
    ensures OptionalSort(p.sort) == Err(SortOutOfRange) ==> exists n :: SaysNumber(p.sort, n)
  {
    DecimalIsSaid(p.companyId, CompanyField);
    SortIsSaid(p.sort);
    DecimalIsSaid(p.roleId, RoleField);
    if PositiveDecimal(p.companyId, CompanyField).Ok? {
      assert SaysNumber(p.companyId, PositiveDecimal(p.companyId, CompanyField).value);
    }
    if OptionalSort(p.sort).Ok? {
      assert SaysSort(p.sort, OptionalSort(p.sort).value);
    }
    if OptionalPositiveDecimal(p.roleId, RoleField).Ok? {
      assert SaysRole(p.roleId, OptionalPositiveDecimal(p.roleId, RoleField).value);
    }
  }

  // ----- Canonical order -----

  predicate IntLe(a: int, b: int) {
    a <= b
  }

  /** Primary first, then by sort with missing ones last, company, role with missing ones last. */
  function BindingKey(b: Binding): seq<int> {
    [if b.isPrimary then 0 else 1,
     if b.sort.None? then 1 else 0, if b.sort.Some? then b.sort.value else 0,
     b.companyId,
     if b.roleId.None? then 1 else 0, if b.roleId.Some? then b.roleId.value else 0]
  }

  predicate BindingLe(a: Binding, b: Binding) {
    LexLe(IntLe, BindingKey(a), BindingKey(b))
  }

  lemma KeyIsInjective(a: Binding, b: Binding)
    requires BindingKey(a) == BindingKey(b)
    ensures a == b
  {
    var k, l := BindingKey(a), BindingKey(b);
    assert k[0] == l[0] && k[1] == l[1] && k[2] == l[2] && k[3] == l[3] && k[4] == l[4] && k[5] == l[5];
  }

  lemma BindingOrder()
    ensures TotalOrder(BindingLe)
  {
    assert TotalOrder(IntLe);
    forall a, b
      ensures BindingLe(a, b) || BindingLe(b, a)
      ensures BindingLe(a, b) && BindingLe(b, a) ==> a == b
    {
      LexTotal(IntLe, BindingKey(a), BindingKey(b));
      if BindingLe(a, b) && BindingLe(b, a) {
        LexAntisymmetric(IntLe, BindingKey(a), BindingKey(b));
        KeyIsInjective(a, b);
      }
    }
    forall a, b, c | BindingLe(a, b) && BindingLe(b, c)
      ensures BindingLe(a, c)
    {
      LexTransitive(IntLe, BindingKey(a), BindingKey(b), BindingKey(c));
    }
  }

  /** A missing value after every present one. */
  predicate PresentFirst(a: Option<int>, b: Option<int>) {
    a.Some? && (b.None? || a.value < b.value)
  }

  function RoleOf(b: Binding): Option<int> {
    if b.roleId.Some? then Some(b.roleId.value) else None
  }

  /** The canonical order, field by field. */
  lemma BindingOrderReads(a: Binding, b: Binding)
    ensures BindingLe(a, b) <==>
            if a.isPrimary != b.isPrimary then a.isPrimary
            else if a.sort != b.sort then PresentFirst(a.sort, b.sort)
            else if a.companyId != b.companyId then a.companyId < b.companyId
            else a.roleId == b.roleId || PresentFirst(RoleOf(a), RoleOf(b))
  {
    var k, l := BindingKey(a), BindingKey(b);
    assert k[0..] == k && l[0..] == l && k[6..] == [] && l[6..] == [];
    LexDecides(IntLe, k, l, 0);
    LexDecides(IntLe, k, l, 1);
    LexDecides(IntLe, k, l, 2);
    LexDecides(IntLe, k, l, 3);
    LexDecides(IntLe, k, l, 4);
    LexDecides(IntLe, k, l, 5);
  }

  // ----- The snapshot constructor -----

  predicate BindingInRange(b: Binding) {
    && b.companyId >= 1
    && (b.sort.Some? ==> 0 <= b.sort.value <= MAX_SIGNED_INT32)
    && (b.roleId.Some? ==> b.roleId.value >= 1)
  }

  function PrimaryCount(b: Binding): int {
    if b.isPrimary then 1 else 0
  }

  function CompanyOf(b: Binding): nat {
    b.companyId
  }

  /** Every check the snapshot's constructor makes under the default contract version. */
  predicate ConstructorAccepts(subjectId: nat, bindings: seq<Binding>) {
    && subjectId >= 1
    && (forall b :: b in bindings ==> BindingInRange(b))
    && |Dedup(Map(CompanyOf, bindings))| == |bindings|
    && Sum(Map(PrimaryCount, bindings)) <= 1
    && Sort(BindingLe, bindings) == bindings
  }

  // ----- The specification -----

  ghost predicate Denotes(payloads: seq<Payload>, b: Binding) {
    exists p :: p in payloads && BindingOf(p) == Ok(b)
  }

  lemma DenotedIsSaid(payloads: seq<Payload>)
    ensures forall b :: Denotes(payloads, b) <==> exists p :: p in payloads && Says(p, b)
  {
    forall p, b
      ensures BindingOf(p) == Ok(b) <==> Says(p, b)
    {
      BindingIsSaid(p, b);
    }
  }

  ghost predicate AllReadable(payloads: seq<Payload>) {
    forall p :: p in payloads ==> BindingOf(p).Ok?
  }

  /** The payloads agree on each company. */
  ghost predicate Consistent(payloads: seq<Payload>) {
    forall b, c :: Denotes(payloads, b) && Denotes(payloads, c) && b.companyId == c.companyId ==> b == c
  }

  ghost predicate OnePrimary(payloads: seq<Payload>) {
    forall b, c :: Denotes(payloads, b) && Denotes(payloads, c) && b.isPrimary && c.isPrimary ==> b == c
  }

  /** Readable payloads that agree on each company and name at most one primary. */
  ghost predicate Acceptable(payloads: seq<Payload>) {
    AllReadable(payloads) && Consistent(payloads) && OnePrimary(payloads)
  }

  /** The canonical arrangement of exactly the bindings the payloads denote. */
  ghost predicate CanonicalOf(payloads: seq<Payload>, bindings: seq<Binding>) {
    && Distinct(bindings) && SortedBy(BindingLe, bindings)
    && (forall b :: b in bindings <==> Denotes(payloads, b))
  }

  lemma CanonicalIsUnique(a: seq<Payload>, b: seq<Payload>, s: seq<Binding>, t: seq<Binding>)
    requires CanonicalOf(a, s) && CanonicalOf(b, t)
    requires forall x :: Denotes(a, x) <==> Denotes(b, x)
    ensures s == t
  {
    BindingOrder();
    DistinctPermutes(s, t);
    SortedUnique(BindingLe, s, t);
  }

  // ----- Which rejection -----

  /** The payloads denote another binding of the company. */
  ghost predicate Contradicts(payloads: seq<Payload>, b: Binding) {
    exists c :: Denotes(payloads, c) && c.companyId == b.companyId && c != b
  }

  /** The rejection the payloads raise before primaries are counted: the earliest in their order. */
  ghost function FirstRejection(payloads: seq<Payload>): Option<Rejection> {
    if payloads == [] then None
    else
      var last := |payloads| - 1;
      var before := FirstRejection(payloads[..last]);
      if before.Some? then before
      else
        match BindingOf(payloads[last])
        case Err(e) => Some(e)
        case Ok(b) => if Contradicts(payloads[..last], b) then Some(ConflictingDuplicate) else None
  }

  /** A rejection that some payload calls for on its own, or two payloads together, in whatever order. */
  ghost predicate CallsFor(payloads: seq<Payload>, e: Rejection) {
    || (exists p :: p in payloads && BindingOf(p) == Err(e))
    || (e == ConflictingDuplicate && !Consistent(payloads))
  }

  /** All the faults of the payloads are of one kind. */
  ghost predicate OneFault(payloads: seq<Payload>) {
    forall e, f :: CallsFor(payloads, e) && CallsFor(payloads, f) ==> e == f
  }

  /** The rejection of a whole call. */
  ghost function Rejected(subjectId: RawValue, payloads: seq<Payload>): Option<Rejection> {
    match PositiveDecimal(subjectId, SubjectField)
    case Err(e) => Some(e)
    case Ok(_) =>
      if FirstRejection(payloads).Some? then FirstRejection(payloads)
      else if OnePrimary(payloads) then None
      else Some(TwoPrimaries)
  }

  lemma DenotesMore(payloads: seq<Payload>, p: Payload, b: Binding)
    ensures Denotes(payloads + [p], b) <==> Denotes(payloads, b) || BindingOf(p) == Ok(b)
  {
    assert forall q :: q in payloads + [p] <==> q in payloads || q == p;
    assert p in payloads + [p];
  }

  lemma FirstRejectionOfMore(payloads: seq<Payload>, p: Payload)
    ensures FirstRejection(payloads + [p]) ==
            if FirstRejection(payloads).Some? then FirstRejection(payloads)
            else if BindingOf(p).Err? then Some(BindingOf(p).error)
            else if Contradicts(payloads, BindingOf(p).value) then Some(ConflictingDuplicate)
            else None
  {
    assert (payloads + [p])[..|payloads|] == payloads;
  }

  /** Later payloads do not replace a rejection. */
  lemma {:induction false} RejectionStays(payloads: seq<Payload>, more: seq<Payload>)
    requires FirstRejection(payloads).Some?
    ensures FirstRejection(payloads + more) == FirstRejection(payloads)
  {
    if more == [] {
      assert payloads + more == payloads;
    } else {
      var last := |more| - 1;
      assert payloads + more == (payloads + more[..last]) + [more[last]];
      RejectionStays(payloads, more[..last]);
      FirstRejectionOfMore(payloads + more[..last], more[last]);
    }
  }

  /** The first rejection is one the payloads call for, and there is none exactly when they call for none. */
  lemma {:induction false} FirstRejectionIsCalledFor(payloads: seq<Payload>)
    ensures FirstRejection(payloads).Some? ==> CallsFor(payloads, FirstRejection(payloads).value)
    ensures FirstRejection(payloads).None? <==> AllReadable(payloads) && Consistent(payloads)
  {
    if payloads != [] {
      var n := |payloads| - 1;
      var p, before := payloads[n], payloads[..n];
      assert payloads == before + [p];
      FirstRejectionIsCalledFor(before);
      FirstRejectionOfMore(before, p);
      forall b
        ensures Denotes(payloads, b) <==> Denotes(before, b) || BindingOf(p) == Ok(b)
      {
        DenotesMore(before, p, b);
      }
      assert forall q :: q in payloads <==> q in before || q == p;
      if BindingOf(p).Ok? {
        assert Denotes(payloads, BindingOf(p).value);
      }
    }
  }

  function ToFront(payloads: seq<Payload>, i: nat): (r: seq<Payload>)
    requires i < |payloads|
    ensures multiset(r) == multiset(payloads)
  {
    assert payloads == payloads[..i] + [payloads[i]] + payloads[i + 1..];
    [payloads[i]] + payloads[..i] + payloads[i + 1..]
  }

  /** Some order of the payloads raises each rejection they call for. */
  lemma CalledForIsRaised(payloads: seq<Payload>, e: Rejection) returns (other: seq<Payload>)
    requires CallsFor(payloads, e)
    ensures multiset(other) == multiset(payloads) && FirstRejection(other) == Some(e)
  {
    if p :| p in payloads && BindingOf(p) == Err(e) {
      var i :| 0 <= i < |payloads| && payloads[i] == p;
      other := ToFront(payloads, i);
      FirstRejectionOfMore([], p);
      RejectionStays([p], other[1..]);
      assert [] + [p] == [p] && [p] + other[1..] == other;
    } else {
      var b, c :| Denotes(payloads, b) && Denotes(payloads, c) && b.companyId == c.companyId && b != c;
      var p :| p in payloads && BindingOf(p) == Ok(b);
      var q :| q in payloads && BindingOf(q) == Ok(c);
      other := TwoToFront(payloads, p, q);
      ClashRejects(p, q, b, c);
      RejectionStays([p, q], other[2..]);
      assert [p, q] + other[2..] == other;
    }
  }

  lemma IndexIn(payloads: seq<Payload>, other: seq<Payload>, p: Payload) returns (i: nat)
    requires p in payloads && multiset(other) == multiset(payloads)
    ensures i < |other| && other[i] == p
  {
    assert p in multiset(payloads);
    assert p in multiset(other);
    i :| 0 <= i < |other| && other[i] == p;
  }

  lemma TwoToFront(payloads: seq<Payload>, p: Payload, q: Payload) returns (other: seq<Payload>)
    requires p in payloads && q in payloads && p != q
    ensures multiset(other) == multiset(payloads) && |other| >= 2 && other[..2] == [p, q]
  {
    var j := IndexIn(payloads, payloads, q);
    var once := ToFront(payloads, j);
    var i := IndexIn(payloads, once, p);
    other := ToFront(once, i);
    assert other == [p] + once[..i] + once[i + 1..] && i >= 1 && once[0] == q;
  }

  lemma ClashRejects(p: Payload, q: Payload, b: Binding, c: Binding)
    requires BindingOf(p) == Ok(b) && BindingOf(q) == Ok(c) && b.companyId == c.companyId && b != c
    ensures FirstRejection([p, q]) == Some(ConflictingDuplicate)
  {
    FirstRejectionIsCalledFor([p]);
    assert p in [p] && Denotes([p], b);
    assert FirstRejection([p]).None?;
    FirstRejectionOfMore([p], q);
    assert [p] + [q] == [p, q];
  }

  // ----- Primaries -----

  ghost predicate AtMostOnePrimary(s: seq<Binding>) {
    forall b, c :: b in s && c in s && b.isPrimary && c.isPrimary ==> b == c
  }

  lemma {:induction false} NoPrimaries(s: seq<Binding>)
    ensures 0 <= Sum(Map(PrimaryCount, s))
    ensures Sum(Map(PrimaryCount, s)) == 0 <==> forall b :: b in s ==> !b.isPrimary
  {
    if s != [] {
      assert Map(PrimaryCount, s)[1..] == Map(PrimaryCount, s[1..]);
      NoPrimaries(s[1..]);
      assert forall b :: b in s <==> b == s[0] || b in s[1..];
    }
  }

  /** Among distinct bindings the count exceeds one exactly when two of them are primary. */
  lemma {:induction false} PrimariesCounted(s: seq<Binding>)
    requires Distinct(s)
    ensures Sum(Map(PrimaryCount, s)) <= 1 <==> AtMostOnePrimary(s)
  {
    if s != [] {
      var rest := s[1..];
      assert Map(PrimaryCount, s)[1..] == Map(PrimaryCount, rest);
      PrimariesCounted(rest);
      NoPrimaries(rest);
      assert s[0] !in rest;
      assert forall b :: b in s <==> b == s[0] || b in rest;
      if s[0].isPrimary && !(forall b :: b in rest ==> !b.isPrimary) {
        var b :| b in rest && b.isPrimary;
        assert b in s && s[0] in s && b != s[0];
      }
    }
  }

  // ----- The loop -----

  /** The dictionary by company and its values in insertion order. */
  ghost predicate Gathered(payloads: seq<Payload>, byCompany: map<nat, Binding>, values: seq<Binding>) {
    && AllReadable(payloads)
    && (forall b :: b in values <==> Denotes(payloads, b))
    && ByCompany(byCompany, values)
  }

  ghost predicate ByCompany(byCompany: map<nat, Binding>, values: seq<Binding>) {
    && (forall b :: b in values ==> b.companyId in byCompany)
    && (forall c :: c in byCompany ==> byCompany[c] in values && byCompany[c].companyId == c)
    && DistinctCompanies(values)
  }

  lemma NewValue(byCompany: map<nat, Binding>, values: seq<Binding>, b: Binding)
    requires ByCompany(byCompany, values) && b.companyId !in byCompany
    ensures ByCompany(byCompany[b.companyId := b], values + [b])
  {
    var more := values + [b];
    assert forall x :: x in more <==> x in values || x == b;
    forall i, j | 0 <= i < j < |more|
      ensures more[i].companyId != more[j].companyId
    {
      assert more[i] in values;
    }
  }

  lemma ReadableMore(payloads: seq<Payload>, p: Payload)
    requires AllReadable(payloads) && BindingOf(p).Ok?
    ensures AllReadable(payloads + [p])
    ensures forall b :: Denotes(payloads + [p], b) <==> Denotes(payloads, b) || b == BindingOf(p).value
  {
    assert forall q :: q in payloads + [p] <==> q in payloads || q == p;
    forall b
      ensures Denotes(payloads + [p], b) <==> Denotes(payloads, b) || b == BindingOf(p).value
    {
      DenotesMore(payloads, p, b);
    }
  }

  lemma NewCompany(payloads: seq<Payload>, byCompany: map<nat, Binding>, values: seq<Binding>, p: Payload)
    requires Gathered(payloads, byCompany, values) && BindingOf(p).Ok?
    requires BindingOf(p).value.companyId !in byCompany
    ensures !Contradicts(payloads, BindingOf(p).value)
    ensures var b := BindingOf(p).value; Gathered(payloads + [p], byCompany[b.companyId := b], values + [b])
  {
    var b := BindingOf(p).value;
    ReadableMore(payloads, p);
    NewValue(byCompany, values, b);
    assert forall x :: x in values + [b] <==> x in values || x == b;
  }

  lemma KnownCompany(payloads: seq<Payload>, byCompany: map<nat, Binding>, values: seq<Binding>, p: Payload)
    requires Gathered(payloads, byCompany, values) && BindingOf(p).Ok?
    requires BindingOf(p).value.companyId in byCompany
    ensures var b := BindingOf(p).value;
            if byCompany[b.companyId] == b then
              Gathered(payloads + [p], byCompany, values) && !Contradicts(payloads, b)
            else Contradicts(payloads, b)
  {
    var b := BindingOf(p).value;
    ReadableMore(payloads, p);
    assert byCompany[b.companyId] in values;
    if byCompany[b.companyId] == b {
      forall c | Denotes(payloads, c) && c.companyId == b.companyId
        ensures c == b
      {
        SameCompany(values, b, c);
      }
    }
  }

  lemma SameCompany(values: seq<Binding>, b: Binding, c: Binding)
    requires DistinctCompanies(values) && b in values && c in values && b.companyId == c.companyId
    ensures b == c
  {
    var i :| 0 <= i < |values| && values[i] == b;
    var j :| 0 <= j < |values| && values[j] == c;
    assert i == j;
  }

  lemma RejectedAt(payloads: seq<Payload>, n: nat)
    requires n < |payloads| && FirstRejection(payloads[..n + 1]).Some?
    ensures FirstRejection(payloads) == FirstRejection(payloads[..n + 1]) && !Acceptable(payloads)
  {
    assert payloads[..n + 1] + payloads[n + 1..] == payloads;
    RejectionStays(payloads[..n + 1], payloads[n + 1..]);
    FirstRejectionIsCalledFor(payloads);
  }

  method GatherBindings(payloads: seq<Payload>) returns (error: Option<Rejection>, values: seq<Binding>)
    ensures error == FirstRejection(payloads)
    ensures error.None? ==> Distinct(values) && AllReadable(payloads)
    ensures error.None? ==> forall b :: b in values <==> Denotes(payloads, b)
    ensures error.None? ==> DistinctCompanies(values)
    ensures error.Some? ==> !Acceptable(payloads) && error.value !in {TwoPrimaries, ConstructorRejected}
  {
    var byCompany: map<nat, Binding> := map[];
    values := [];
    for n := 0 to |payloads|
      invariant Gathered(payloads[..n], byCompany, values)
      invariant FirstRejection(payloads[..n]).None?
    {
      assert payloads[..n + 1] == payloads[..n] + [payloads[n]];
      FirstRejectionOfMore(payloads[..n], payloads[n]);
      var binding := BindingOf(payloads[n]);
      if binding.Err? {
        RejectedAt(payloads, n);
        return Some(binding.error), values;
      }
      if binding.value.companyId !in byCompany {
        NewCompany(payloads[..n], byCompany, values, payloads[n]);
        byCompany := byCompany[binding.value.companyId := binding.value];
        values := values + [binding.value];
      } else {
        KnownCompany(payloads[..n], byCompany, values, payloads[n]);
        if byCompany[binding.value.companyId] != binding.value {
          RejectedAt(payloads, n);
          return Some(ConflictingDuplicate), values;
        }
      }
    }
    assert payloads[..|payloads|] == payloads;
    error := None;
  }

  ghost predicate DistinctCompanies(values: seq<Binding>) {
    forall i, j :: 0 <= i < j < |values| ==> values[i].companyId != values[j].companyId
  }

  lemma SortedValues(payloads: seq<Payload>, values: seq<Binding>)
    requires AllReadable(payloads) && DistinctCompanies(values)
    requires forall b :: b in values <==> Denotes(payloads, b)
    ensures CanonicalOf(payloads, Sort(BindingLe, values)) && DistinctCompanies(Sort(BindingLe, values))
    ensures Acceptable(payloads) <==> AtMostOnePrimary(Sort(BindingLe, values))
  {
    var sorted := Sort(BindingLe, values);
    BindingOrder();
    SortSorted(BindingLe, values);
    SortPermutes(BindingLe, values);
    MapPermutes(CompanyOf, sorted, values);
    DistinctCounts(Map(CompanyOf, values));
    DistinctCounts(Map(CompanyOf, sorted));
    forall i, j | 0 <= i < j < |sorted|
      ensures sorted[i].companyId != sorted[j].companyId && sorted[i] != sorted[j]
    {
      assert Map(CompanyOf, sorted)[i] != Map(CompanyOf, sorted)[j];
    }
    forall b, c | b in values && c in values && b.companyId == c.companyId
      ensures b == c
    {
      SameCompany(values, b, c);
    }
  }

  /** What normalisation produces passes every check of the constructor. */
  lemma CanonicalIsAccepted(payloads: seq<Payload>, subjectId: nat, bindings: seq<Binding>)
    requires subjectId >= 1 && AllReadable(payloads)
    requires CanonicalOf(payloads, bindings) && DistinctCompanies(bindings) && AtMostOnePrimary(bindings)
    ensures ConstructorAccepts(subjectId, bindings)
  {
    BindingOrder();
    SortIdentity(BindingLe, bindings);
    PrimariesCounted(bindings);
    DedupIdentity(Map(CompanyOf, bindings));
    forall b | b in bindings
      ensures BindingInRange(b)
    {
      assert Denotes(payloads, b);
    }
  }

  method Normalize(kind: SubjectKind, subjectId: RawValue, payloads: seq<Payload>)
    returns (r: Result<MembershipSnapshot, Rejection>)
    ensures r.Ok? <==> PositiveDecimal(subjectId, SubjectField).Ok? && Acceptable(payloads)
    ensures r.Ok? ==> r.value.kind == kind && PositiveDecimal(subjectId, SubjectField) == Ok(r.value.subjectId)
    ensures r.Ok? ==> CanonicalOf(payloads, r.value.bindings)
    ensures r.Ok? ==> SaysNumber(subjectId, r.value.subjectId)
    ensures r.Ok? ==> forall b :: b in r.value.bindings <==> exists p :: p in payloads && Says(p, b)
    ensures r.Ok? ==> ConstructorAccepts(r.value.subjectId, r.value.bindings) && r.value.Valid()
    ensures r.Err? ==> Rejected(subjectId, payloads) == Some(r.error)
    ensures r == Err(TwoPrimaries) <==>
            && PositiveDecimal(subjectId, SubjectField).Ok?
            && AllReadable(payloads) && Consistent(payloads) && !OnePrimary(payloads)
    ensures r != Err(ConstructorRejected)
  {
    FirstRejectionIsCalledFor(payloads);
    var normalized := PositiveDecimal(subjectId, SubjectField);
    if normalized.Err? {
      return Err(normalized.error);
    }
    var error, values := GatherBindings(payloads);
    if error.Some? {
      return Err(error.value);
    }
    var bindings := Sort(BindingLe, values);
    SortedValues(payloads, values);
    PrimariesCounted(bindings);
    if Sum(Map(PrimaryCount, bindings)) > 1 {
      return Err(TwoPrimaries);
    }
    CanonicalIsAccepted(payloads, normalized.value, bindings);
    if !ConstructorAccepts(normalized.value, bindings) {
      return Err(ConstructorRejected);
    }
    DecimalIsSaid(subjectId, SubjectField);
    DenotedIsSaid(payloads);
    return Ok(MembershipSnapshot(kind, normalized.value, bindings));
  }

  // ----- What the snapshot depends on -----

  /**
    Permuting payloads or repeating them changes neither acceptance nor the snapshot, nor a refusal
    for two primaries, nor any other refusal of payloads with one kind of fault.
   */
  lemma OnlyTheSetMatters(subjectId: RawValue, a: seq<Payload>, b: seq<Payload>, s: seq<Binding>, t: seq<Binding>)
    requires forall p :: p in a <==> p in b
    ensures Acceptable(a) <==> Acceptable(b)
    ensures CanonicalOf(a, s) && CanonicalOf(b, t) ==> s == t
    ensures Rejected(subjectId, a) == Some(TwoPrimaries) <==> Rejected(subjectId, b) == Some(TwoPrimaries)
    ensures OneFault(a) ==> Rejected(subjectId, a) == Rejected(subjectId, b)
  {
    forall x
      ensures Denotes(a, x) <==> Denotes(b, x)
    {
    }
    assert AllReadable(a) <==> AllReadable(b);
    FirstRejectionIsCalledFor(a);
    FirstRejectionIsCalledFor(b);
    assert forall e :: CallsFor(b, e) ==> CallsFor(a, e);
    if CanonicalOf(a, s) && CanonicalOf(b, t) {
      CanonicalIsUnique(a, b, s, t);
    }
  }

  /**
    Every order of the payloads is refused alike exactly when the subject is at fault or the
    payloads have one fault.
   */
  lemma RejectionIsDeterminedExactly(subjectId: RawValue, payloads: seq<Payload>)
    ensures (forall other :: multiset(other) == multiset(payloads) ==>
                               Rejected(subjectId, other) == Rejected(subjectId, payloads)) <==>
            PositiveDecimal(subjectId, SubjectField).Err? || OneFault(payloads)
  {
    if OneFault(payloads) {
      forall other | multiset(other) == multiset(payloads)
        ensures Rejected(subjectId, other) == Rejected(subjectId, payloads)
      {
        forall p
          ensures p in payloads <==> p in other
        {
          assert p in payloads <==> p in multiset(payloads);
          assert p in other <==> p in multiset(other);
        }
        OnlyTheSetMatters(subjectId, payloads, other, [], []);
      }
    } else {
      var e, f :| CallsFor(payloads, e) && CallsFor(payloads, f) && e != f;
      var raisesE := CalledForIsRaised(payloads, e);
      var raisesF := CalledForIsRaised(payloads, f);
      assert PositiveDecimal(subjectId, SubjectField).Ok? ==>
          Rejected(subjectId, raisesE) == Some(e) && Rejected(subjectId, raisesF) == Some(f);
    }
  }

  /** A company given as a float and a flag given as one: the first in the order names the message. */
  lemma OrderNamesTheMessage()
    ensures var p := Payload(RawFloat, RawNull, RawNull, RawBool(true));
            var q := Payload(RawInt(1), RawNull, RawNull, RawFloat);
            && Rejected(RawInt(7), [p, q]) == Some(NotAPositiveDecimal(CompanyField))
            && Rejected(RawInt(7), [q, p]) == Some(NotAFlag)
  {
    var p := Payload(RawFloat, RawNull, RawNull, RawBool(true));
    var q := Payload(RawInt(1), RawNull, RawNull, RawFloat);
    FirstRejectionOfMore([], p);
    FirstRejectionOfMore([], q);
    RejectionStays([p], [q]);
    RejectionStays([q], [p]);
    assert [] + [p] == [p] && [] + [q] == [q] && [p] + [q] == [p, q] && [q] + [p] == [q, p];
  }

  /** The payloads say the bindings, one each, in any of the connector's forms. */
  ghost predicate SaysEach(payloads: seq<Payload>, bindings: seq<Binding>) {
    |payloads| == |bindings| && forall i :: 0 <= i < |bindings| ==> Says(payloads[i], bindings[i])
  }

  /** Normalising any payloads that say the bindings of an accepted snapshot gives the same bindings. */
  lemma RenormalizingIsIdentity(subjectId: nat, bindings: seq<Binding>, payloads: seq<Payload>, again: seq<Binding>)
    requires ConstructorAccepts(subjectId, bindings) && SaysEach(payloads, bindings)
    ensures PositiveDecimal(RawText(Decimal(subjectId)), SubjectField) == Ok(subjectId)
    ensures PositiveDecimal(RawInt(subjectId), SubjectField) == Ok(subjectId)
    ensures Acceptable(payloads)
    ensures CanonicalOf(payloads, again) <==> again == bindings
  {
    NumeralReadsBack(subjectId);
    ReadsBack(bindings, payloads);
    AcceptedAreDistinct(subjectId, bindings);
    PrimariesCounted(bindings);
    BindingOrder();
    SortSorted(BindingLe, bindings);
    assert CanonicalOf(payloads, bindings);
    forall b, c | b in bindings && c in bindings && b.companyId == c.companyId
      ensures b == c
    {
      SameCompany(bindings, b, c);
    }
    if CanonicalOf(payloads, again) {
      CanonicalIsUnique(payloads, payloads, again, bindings);
    }
  }

  lemma NumeralReadsBack(n: nat)
    ensures Number(RawText(Decimal(n))) == Some(n)
  {
    NumeralIsStripped(Decimal(n));
    ParseUndoesDecimal(n);
  }

  lemma ReadsBack(bindings: seq<Binding>, payloads: seq<Payload>)
    requires SaysEach(payloads, bindings)
    ensures AllReadable(payloads)
    ensures forall b :: b in bindings <==> Denotes(payloads, b)
  {
    forall i | 0 <= i < |bindings|
      ensures BindingOf(payloads[i]) == Ok(bindings[i])
    {
      BindingIsSaid(payloads[i], bindings[i]);
    }
    forall b
      ensures b in bindings <==> Denotes(payloads, b)
    {
      if b in bindings {
        var i :| 0 <= i < |bindings| && bindings[i] == b;
        assert payloads[i] in payloads;
      }
      if Denotes(payloads, b) {
        var p :| p in payloads && BindingOf(p) == Ok(b);
        var i :| 0 <= i < |payloads| && payloads[i] == p;
      }
    }
  }

  /** A binding as the connector's text: decimals and the letters of the flag. */
  function TextOf(b: Binding): Payload {
    Payload(RawText(Decimal(b.companyId)),
            if b.sort.Some? && b.sort.value >= 0 then RawText(Decimal(b.sort.value)) else RawNull,
            if b.roleId.Some? then RawText(Decimal(b.roleId.value)) else RawNull,
            RawText(if b.isPrimary then "Y" else "N"))
  }

  /** A binding as typed values: integers and the flag. */
  function ValuesOf(b: Binding): Payload {
    Payload(RawInt(b.companyId), if b.sort.Some? then RawInt(b.sort.value) else RawNull,
            if b.roleId.Some? then RawInt(b.roleId.value) else RawText("  "), RawBool(b.isPrimary))
  }

  /** The bindings of an accepted snapshot can be said in text and in values alike. */
  lemma BindingsCanBeSaid(subjectId: nat, bindings: seq<Binding>)
    requires ConstructorAccepts(subjectId, bindings)
    ensures SaysEach(Map(TextOf, bindings), bindings) && SaysEach(Map(ValuesOf, bindings), bindings)
  {
    forall i | 0 <= i < |bindings|
      ensures Says(TextOf(bindings[i]), bindings[i]) && Says(ValuesOf(bindings[i]), bindings[i])
    {
      TextIsSaid(bindings[i]);
      ValuesAreSaid(bindings[i]);
    }
  }

  lemma NumeralSays(n: nat)
    ensures SaysNumber(RawText(Decimal(n)), n) && !SaysNothing(RawText(Decimal(n)))
  {
    NumeralReadsBack(n);
    NumberIsSaid(RawText(Decimal(n)), n);
    assert IsDigit(Decimal(n)[0]);
  }

  lemma TextIsSaid(b: Binding)
    requires BindingInRange(b)
    ensures Says(TextOf(b), b)
  {
    NumeralSays(b.companyId);
    if b.sort.Some? {
      NumeralSays(b.sort.value);
    }
    if b.roleId.Some? {
      NumeralSays(b.roleId.value);
    }
  }

  lemma ValuesAreSaid(b: Binding)
    requires BindingInRange(b)
    ensures Says(ValuesOf(b), b)
  {
    assert AllSpace("  ");
  }

  lemma AcceptedAreDistinct(subjectId: nat, bindings: seq<Binding>)
    requires ConstructorAccepts(subjectId, bindings)
    ensures DistinctCompanies(bindings) && Distinct(bindings)
  {
    DedupShorter(Map(CompanyOf, bindings));
    forall i, j | 0 <= i < j < |bindings|
      ensures bindings[i].companyId != bindings[j].companyId
    {
      assert Map(CompanyOf, bindings)[i] != Map(CompanyOf, bindings)[j];
    }
  }
}
