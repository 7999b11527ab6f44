# Character archetypes of the character creation module

A model of the stat core in `main.py`. The base class `Character` has three subclasses: `Warrior`, `Mage` and `Healer`. Each subclass only overrides class constants: a description, an attack offset range, a defence offset range, a special buff and a special skill name. An instance has one field, its `name`, which is set once by the constructor. From these:

- `attack` adds a `randint` offset from `RANGE_VALUE_ATTACK` to `DEFAULT_ATTACK` (5).
- `defence` adds a `randint` offset from `RANGE_VALUE_DEFENCE` to `DEFAULT_DEFENCE` (10).
- `special` uses no randomness: it states the skill name and the buff.
- `__str__` writes the class name, a dash and the description.

Each operation returns one sentence.

The model is pure Dafny, in four modules:

- `Game` (`game.dfy`) holds the archetypes. `Archetype = Base | Warrior | Mage | Healer` names the class, and `Base` stands for `Character` itself. `Body` is a table of what each class body declares, with `None` where it declares nothing under a name. `Lookup` is Python's attribute lookup for this hierarchy: the class's own declaration, otherwise the one inherited from `Character`. The misspelled `BREIF_DESC_CHAR_CLASS` is kept as its own field. No method reads that field, so lookup falls through to the base description exactly as the source does. The offset that `randint` drew is a parameter `r`, with `requires Range.Contains(r)`.
- `Decimal` (`decimal.dfy`) is Python's `str()` of an `int`, which is how the f-strings print the values. It comes with a reader `ParseInt` and a round-trip lemma.
- `Text` (`text.dfy`) reads the trailing integer of a sentence back. It is used to show that every sentence carries the character's name unchanged, together with its value.
- `Wrappers` (`wrappers.dfy`) is `Option`.

Two points about the source:

- `__str__` of a base instance prints the class name `Character`, not an archetype name such as `Base`.
- `main.py` holds a single copy of the classes. That copy has the misspelling, so `Mage` and `Healer` print the base description. `Describe` models this. `DescribeIntended` is the corrected reading (see Findings).

## Model

| member | source | states |
|---|---|---|
| `Game.Body` | main.py:20-116 | the class-constant table: every class declares both ranges, the buff and the skill; `BRIEF_DESC_CHAR_CLASS` is declared exactly by Character and Warrior, the misspelled `BREIF_DESC_CHAR_CLASS` exactly by Mage and Healer |
| `Game.OwnDeclarationsWin` | main.py:74-116 | `Lookup` (attribute lookup through inheritance): every subclass's own ranges, buff and skill are the ones used; the description is the class's own only where it declares `BRIEF_DESC_CHAR_CLASS`, otherwise Character's |
| `Game.AttackRange` | main.py:46 | the attack range found by lookup has lo <= hi for every archetype, so `randint(*RANGE_VALUE_ATTACK)` is always defined |
| `Game.DefenceRange` | main.py:58-60 | the defence range found by lookup has lo <= hi for every archetype, so `randint(*RANGE_VALUE_DEFENCE)` is always defined |
| `Game.AttackValue` | main.py:46 | DEFAULT_ATTACK plus a drawn attack offset lies in [5 + lo, 5 + hi] of the archetype's range |
| `Game.DefenceValue` | main.py:58-60 | DEFAULT_DEFENCE plus a drawn defence offset lies in [10 + lo, 10 + hi] of the archetype's range |
| `Game.AttackValuesExactly` | main.py:46 | a value is a possible attack value if and only if it lies in [5 + lo, 5 + hi]: the bounds are exact, with no gaps |
| `Game.DefenceValuesExactly` | main.py:58-60 | a value is a possible defence value if and only if it lies in [10 + lo, 10 + hi] |
| `Game.ValueBounds` | main.py:21-116 | per archetype, attack and defence span: Character [6,8] and [11,15]; Warrior [8,10] and [15,20]; Mage [10,15] and [8,12]; Healer [2,4] and [12,15] |
| `Game.HealerAttacksBelowDefault` | main.py:113 | every healer attack is strictly below DEFAULT_ATTACK, because its offsets are all negative |
| `Game.MageDefenceCanDropBelowDefault` | main.py:99 | some mage defence draw gives less than DEFAULT_DEFENCE |
| `Game.SpecialBuffs` | main.py:23-115 | the buffs are 15 (Character), 105 (DEFAULT_STAMINA + 25), 45 (DEFAULT_ATTACK + 40) and 40 (DEFAULT_DEFENCE + 30) |
| `Game.Attack` | main.py:38-48 | the attack sentence starts with the character's name unchanged; `AttackReadsBack` states the value it carries |
| `Game.Defence` | main.py:50-61 | the defence sentence starts with the character's name unchanged; `DefenceReadsBack` states the value it carries |
| `Game.Special` | main.py:63-71 | the special sentence starts with the character's name unchanged; `SpecialReadsBack` states the buff it carries |
| `Game.AttackReadsBack` | main.py:38-48 | reading the attack sentence back gives exactly the character's name and the attack value |
| `Game.DefenceReadsBack` | main.py:50-61 | reading the defence sentence back gives exactly the character's name and the defence value |
| `Game.SpecialReadsBack` | main.py:63-71 | reading the special sentence back, given the archetype's skill name, gives exactly the name and the archetype's buff |
| `Game.DescribeValues` | main.py:34-36 | `Describe` (`__str__`) for each class: "Character - " and the base description, "Warrior - " and Warrior's own description, "Mage - " and "Healer - " each with the base description |
| `Game.MisspellingHidesDescription` | main.py:34-36 | Mage and Healer declare a description that `__str__` never shows; both show Character's description, while Warrior's differs from it |
| `Game.IntendedDescriptionsDistinct` | main.py:96-112 | with either spelling honoured, no two archetypes share a description, and no two corrected `__str__` results coincide |
| `Game.DescribeIntendedValues` | main.py:96-112 | the corrected `__str__` shows Mage's and Healer's own declared text and leaves Character's and Warrior's unchanged |
| `Decimal.IntToString` | main.py:47-48 | an f-string integer is non-empty, contains no space, and starts with '-' exactly when it is negative |
| `Decimal.IntRoundTrip` | main.py:47-48 | the decimal text of every integer reads back as that integer |

## Left out

- The random number generator. `randint` is replaced by the offset it returned, which must lie in the range. Uniformity of the draw is not modelled.
- main.py has no interactive shell; choosing an archetype and dispatching commands are outside this model.
- Python's general attribute resolution is replaced by a lookup over this one-level hierarchy (own class, then `Character`). That lookup gives the same outcome as Python here.
- `__init__` (main.py:26-32) accepts any string, including the empty one, and the model does too.
- `special` being deterministic has no lemma: `Game.Special` takes no offset parameter, so its sentence is a function of the character alone.
- `Text` and `Decimal.ParseInt` are readers that exist for the model's round-trip lemmas. They are not operations of the source.

## Findings

| source | as written | input that shows it | evidently intended | confidence | as-written member | corrected member |
|---|---|---|---|---|---|---|
| main.py:96 | `Mage` and `Healer` (main.py:111) declare `BREIF_DESC_CHAR_CLASS`, which `__str__` never reads, so both inherit Character's description | `str(Mage('x'))` gives `Mage - отважный любитель приключений.` | each subclass shows its own description, as `Warrior` does | high; not executed | `Game.MisspellingHidesDescription` | `Game.IntendedDescriptionsDistinct` |
