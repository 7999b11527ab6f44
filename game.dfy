/** The character archetypes of the game: the class constants that Character,
    Warrior, Mage and Healer declare, Python's lookup of those constants through
    inheritance, and the four things a character does with them (describe
    itself, attack, defend, use its special skill). The random draw of randint
    is a parameter: the offset r that randint returned. */
module Game {
  import opened Wrappers
  import opened Decimal
  import opened Text

  const DefaultAttack: int := 5
  const DefaultDefence: int := 10
  const DefaultStamina: int := 80

  /** One value per class: Base is Character itself. */
  datatype Archetype = Base | Warrior | Mage | Healer

  /** An inclusive interval, the pair of bounds handed to randint. */
  datatype Range = Range(lo: int, hi: int) {
    predicate Contains(x: int) {
      lo <= x <= hi
    }
  }

  /** What one class body declares; None where it declares nothing under that name.
      breifDesc is the misspelled BREIF_DESC_CHAR_CLASS, which no method reads. */
  datatype ClassBody = ClassBody(
    briefDesc: Option<string>,
    breifDesc: Option<string>,
    rangeAttack: Option<Range>,
    rangeDefence: Option<Range>,
    specialBuff: Option<int>,
    specialSkill: Option<string>)

  const BaseDescription := "отважный любитель приключений"

  function Body(a: Archetype): (b: ClassBody)
    ensures b.rangeAttack.Some? && b.rangeDefence.Some? && b.specialBuff.Some? && b.specialSkill.Some?
    ensures b.briefDesc.Some? <==> a == Base || a == Warrior
    ensures b.breifDesc.Some? <==> a == Mage || a == Healer
  {
    match a
    case Base =>
      ClassBody(Some(BaseDescription), None,
                Some(Range(1, 3)), Some(Range(1, 5)), Some(15), Some("Удача"))
    case Warrior =>
      ClassBody(Some("дерзкий воин ближнего боя. " + "Сильный, выносливый и отважный"), None,
                Some(Range(3, 5)), Some(Range(5, 10)), Some(DefaultStamina + 25), Some("Выносливость"))
    case Mage =>
      ClassBody(None, Some("находчивый воин дальнего боя. " + "Обладает высоким интеллектом"),
                Some(Range(5, 10)), Some(Range(-2, 2)), Some(DefaultAttack + 40), Some("Атака"))
    case Healer =>
      ClassBody(None, Some("могущественный заклинатель. " + "Черпает силы из природы, веры и духов"),
                Some(Range(-3, -1)), Some(Range(2, 5)), Some(DefaultDefence + 30), Some("Защита"))
  }

  /** Attribute lookup on an instance: the class's own declaration, else the
      one it inherits from Character. */
  function Lookup<T>(a: Archetype, field: ClassBody -> Option<T>): Option<T> {
    if field(Body(a)).Some? then field(Body(a)) else field(Body(Base))
  }

  /** self.__class__.__name__ */
  function ClassName(a: Archetype): string {
    match a
    case Base => "Character"
    case Warrior => "Warrior"
    case Mage => "Mage"
    case Healer => "Healer"
  }

  function Description(a: Archetype): string {
    Lookup(a, (b: ClassBody) => b.briefDesc).value
  }

  /** RANGE_VALUE_ATTACK as looked up; randint needs lo <= hi, and every class has it. */
  function AttackRange(a: Archetype): (r: Range)
    ensures r.lo <= r.hi
  {
    Lookup(a, (b: ClassBody) => b.rangeAttack).value
  }

  /** RANGE_VALUE_DEFENCE as looked up; again a well-formed randint range. */
  function DefenceRange(a: Archetype): (r: Range)
    ensures r.lo <= r.hi
  {
    Lookup(a, (b: ClassBody) => b.rangeDefence).value
  }

  function SpecialBuff(a: Archetype): int {
    Lookup(a, (b: ClassBody) => b.specialBuff).value
  }

  function SpecialSkill(a: Archetype): string {
    Lookup(a, (b: ClassBody) => b.specialSkill).value
  }

  /** An instance: the name given to the constructor and the class it was made from.
      Both are fixed at creation; no method changes them. */
  datatype Character = Character(name: string, archetype: Archetype)

  /** __str__: the class name, a dash, and the description the lookup finds. */
  function Describe(a: Archetype): string {
    ClassName(a) + " - " + Description(a) + "."
  }

  /** value_attack: DEFAULT_ATTACK plus the offset r that randint drew. */
  function AttackValue(a: Archetype, r: int): (v: int)
    requires AttackRange(a).Contains(r)
    ensures DefaultAttack + AttackRange(a).lo <= v <= DefaultAttack + AttackRange(a).hi
  {
    DefaultAttack + r
  }

  /** value_defence: DEFAULT_DEFENCE plus the offset r that randint drew. */
  function DefenceValue(a: Archetype, r: int): (v: int)
    requires DefenceRange(a).Contains(r)
    ensures DefaultDefence + DefenceRange(a).lo <= v <= DefaultDefence + DefenceRange(a).hi
  {
    DefaultDefence + r
  }

  const AttackInfix := " нанёс противнику урон, равный "
  const DefenceInfix := " блокировал "
  const DefenceSuffix := " ед. урона."
  const SpecialInfix := " применил специальное умение "
  const SpecialSuffix := "\"."

  function Attack(c: Character, r: int): (msg: string)
    requires AttackRange(c.archetype).Contains(r)
    ensures |c.name| < |msg| && msg[..|c.name|] == c.name
  {
    c.name + AttackInfix + IntToString(AttackValue(c.archetype, r))
  }

  function Defence(c: Character, r: int): (msg: string)
    requires DefenceRange(c.archetype).Contains(r)
    ensures |c.name| < |msg| && msg[..|c.name|] == c.name
  {
    c.name + DefenceInfix + IntToString(DefenceValue(c.archetype, r)) + DefenceSuffix
  }

  /** The only operation without a draw: it has no offset parameter at all. */
  function Special(c: Character): (msg: string)
    ensures |c.name| < |msg| && msg[..|c.name|] == c.name
  {
    c.name + SpecialInfix + "\"" + SpecialSkill(c.archetype) + " "
      + IntToString(SpecialBuff(c.archetype)) + SpecialSuffix
  }

  // Readers: what a player reading the printed sentence can recover from it.

  function ReadAttack(msg: string): Option<(string, int)> {
    ReadAfter(msg, AttackInfix)
  }

  function ReadDefence(msg: string): Option<(string, int)> {
    match DropSuffix(msg, DefenceSuffix)
    case Some(m) => ReadAfter(m, DefenceInfix)
    case None => None
  }

  /** Reads the name and the buff of a special sentence of archetype a. */
  function ReadSpecial(a: Archetype, msg: string): Option<(string, int)> {
    match DropSuffix(msg, SpecialSuffix)
    case Some(m) => ReadAfter(m, SpecialInfix + "\"" + SpecialSkill(a) + " ")
    case None => None
  }

  // Properties of the stats.

  /** Every subclass overrides the ranges, the buff and the skill, so the
      lookup finds its own values; the description is its own only where the
      class declares it under the spelling __str__ reads. */
  lemma OwnDeclarationsWin(a: Archetype)
    ensures AttackRange(a) == Body(a).rangeAttack.value
    ensures DefenceRange(a) == Body(a).rangeDefence.value
    ensures SpecialBuff(a) == Body(a).specialBuff.value
    ensures SpecialSkill(a) == Body(a).specialSkill.value
    ensures Description(a) == if Body(a).briefDesc.Some? then Body(a).briefDesc.value else BaseDescription
  {
  }

  /** A value can come out of attack exactly when it lies in
      [DEFAULT_ATTACK + lo, DEFAULT_ATTACK + hi]. */
  lemma AttackValuesExactly(a: Archetype, v: int)
    ensures (exists r :: AttackRange(a).Contains(r) && AttackValue(a, r) == v)
        <==> DefaultAttack + AttackRange(a).lo <= v <= DefaultAttack + AttackRange(a).hi
  {
    if DefaultAttack + AttackRange(a).lo <= v <= DefaultAttack + AttackRange(a).hi {
      assert AttackValue(a, v - DefaultAttack) == v;
    }
  }

  /** A value can come out of defence exactly when it lies in
      [DEFAULT_DEFENCE + lo, DEFAULT_DEFENCE + hi]. */
  lemma DefenceValuesExactly(a: Archetype, v: int)
    ensures (exists r :: DefenceRange(a).Contains(r) && DefenceValue(a, r) == v)
        <==> DefaultDefence + DefenceRange(a).lo <= v <= DefaultDefence + DefenceRange(a).hi
  {
    if DefaultDefence + DefenceRange(a).lo <= v <= DefaultDefence + DefenceRange(a).hi {
      assert DefenceValue(a, v - DefaultDefence) == v;
    }
  }

  /** The smallest and largest attack and defence of each archetype. */
  lemma ValueBounds(a: Archetype)
    ensures (DefaultAttack + AttackRange(a).lo, DefaultAttack + AttackRange(a).hi)
         == match a
            case Base => (6, 8)
            case Warrior => (8, 10)
            case Mage => (10, 15)
            case Healer => (2, 4)
    ensures (DefaultDefence + DefenceRange(a).lo, DefaultDefence + DefenceRange(a).hi)
         == match a
            case Base => (11, 15)
            case Warrior => (15, 20)
            case Mage => (8, 12)
            case Healer => (12, 15)
  {
  }

  /** The healer's attack offsets are all negative. */
  lemma HealerAttacksBelowDefault(r: int)
    requires AttackRange(Healer).Contains(r)
    ensures AttackValue(Healer, r) < DefaultAttack
  {
  }

  /** The mage's defence offsets reach below zero. */
  lemma MageDefenceCanDropBelowDefault()
    ensures exists r :: DefenceRange(Mage).Contains(r) && DefenceValue(Mage, r) < DefaultDefence
  {
    assert DefenceValue(Mage, -1) < DefaultDefence;
  }

  lemma SpecialBuffs()
    ensures SpecialBuff(Base) == 15 && SpecialBuff(Warrior) == 105
    ensures SpecialBuff(Mage) == 45 && SpecialBuff(Healer) == 40
  {
  }

  // Properties of the sentences.

  /** The attack sentence carries the name unchanged and the attack value. */
  lemma AttackReadsBack(c: Character, r: int)
    requires AttackRange(c.archetype).Contains(r)
    ensures ReadAttack(Attack(c, r)) == Some((c.name, AttackValue(c.archetype, r)))
  {
    ReadAfterRoundTrip(c.name, AttackInfix, AttackValue(c.archetype, r));
  }

  /** The defence sentence carries the name unchanged and the defence value. */
  lemma DefenceReadsBack(c: Character, r: int)
    requires DefenceRange(c.archetype).Contains(r)
    ensures ReadDefence(Defence(c, r)) == Some((c.name, DefenceValue(c.archetype, r)))
  {
    var v := DefenceValue(c.archetype, r);
    DropSuffixRoundTrip(c.name + DefenceInfix + IntToString(v), DefenceSuffix);
    ReadAfterRoundTrip(c.name, DefenceInfix, v);
  }

  /** The special sentence carries the name unchanged, the archetype's skill
      and its buff. */
  lemma SpecialReadsBack(c: Character)
    ensures ReadSpecial(c.archetype, Special(c)) == Some((c.name, SpecialBuff(c.archetype)))
  {
    var a := c.archetype;
    var infix := SpecialInfix + "\"" + SpecialSkill(a) + " ";
    var w := IntToString(SpecialBuff(a));
    assert Special(c) == c.name + infix + w + SpecialSuffix;
    DropSuffixRoundTrip(c.name + infix + w, SpecialSuffix);
    ReadAfterRoundTrip(c.name, infix, SpecialBuff(a));
  }

  // The description, as written and as intended.

  /** What __str__ returns for each class. */
  lemma DescribeValues()
    ensures Describe(Base) == "Character - " + BaseDescription + "."
    ensures Describe(Warrior) == "Warrior - " + Body(Warrior).briefDesc.value + "."
    ensures Describe(Mage) == "Mage - " + BaseDescription + "."
    ensures Describe(Healer) == "Healer - " + BaseDescription + "."
  {
  }

  /** As written, Mage and Healer declare their text under the misspelled name,
      so the lookup falls through to Character's description. */
  lemma MisspellingHidesDescription()
    ensures Body(Mage).breifDesc.Some? && Description(Mage) != Body(Mage).breifDesc.value
    ensures Body(Healer).breifDesc.Some? && Description(Healer) != Body(Healer).breifDesc.value
    ensures Describe(Mage) == "Mage - " + BaseDescription + "."
    ensures Describe(Healer) == "Healer - " + BaseDescription + "."
    ensures Description(Mage) == Description(Healer) == Description(Base)
    ensures Description(Warrior) != Description(Base)
  {
  }

  /** The description each class evidently meant to give: the one its own
      body declares under either spelling, else Character's. */
  function IntendedDescription(a: Archetype): string {
    var body := Body(a);
    if body.briefDesc.Some? then body.briefDesc.value
    else if body.breifDesc.Some? then body.breifDesc.value
    else BaseDescription
  }

  function DescribeIntended(a: Archetype): string {
    ClassName(a) + " - " + IntendedDescription(a) + "."
  }

  /** With the spelling corrected, every archetype shows a description of its own. */
  lemma IntendedDescriptionsDistinct(a: Archetype, b: Archetype)
    requires a != b
    ensures IntendedDescription(a) != IntendedDescription(b)
    ensures DescribeIntended(a) != DescribeIntended(b)
  {
  }

  /** The corrected __str__: Mage and Healer show the text they declare,
      Character and Warrior are unchanged. */
  lemma DescribeIntendedValues()
    ensures DescribeIntended(Mage) == "Mage - " + Body(Mage).breifDesc.value + "."
    ensures DescribeIntended(Healer) == "Healer - " + Body(Healer).breifDesc.value + "."
    ensures DescribeIntended(Base) == Describe(Base)
    ensures DescribeIntended(Warrior) == Describe(Warrior)
  {
  }
}
