/** `PlayerStats`: base stats plus a bonus table that modifiers add to and take
    from, and the current HP/MP kept inside their maxima. Only the integer stats
    are modelled; the two float stats keep their bonus entries but no value. */
module Stats {
  import opened Wrappers
  import opened Int32
  import opened Items

  /** The configured base values of the seven integer stats (serialized
      defaults 100 HP, 50 MP and 10 for every other integer stat; the model
      takes them as a constructor parameter). */
  datatype BaseStats = BaseStats(maxHP: int32, maxMP: int32, attack: int32,
                                 strength: int32, agility: int32, intellect: int32, vitality: int32)

  predicate IsIntegerStat(t: StatType)
  {
    t != AttackSpeed && t != MoveSpeed
  }

  function BaseOf(b: BaseStats, t: StatType): int32
    requires IsIntegerStat(t)
  {
    match t
    case MaxHP => b.maxHP
    case MaxMP => b.maxMP
    case Attack => b.attack
    case Strength => b.strength
    case Agility => b.agility
    case Intellect => b.intellect
    case Vitality => b.vitality
  }

  /** `GetBonus`: the table's entry, 0 for an absent key. */
  function BonusOf(bonus: map<StatType, int32>, t: StatType): int32
  {
    if t in bonus then bonus[t] else 0
  }

  /** An integer stat: its base plus its bonus, as C# ints. */
  function StatValue(b: BaseStats, bonus: map<StatType, int32>, t: StatType): int32
    requires IsIntegerStat(t)
  {
    WrapAdd(BaseOf(b, t), BonusOf(bonus, t))
  }

  /** `AddBonus`: adds `delta` to one entry, creating it at 0 first. */
  function AddBonus(bonus: map<StatType, int32>, t: StatType, delta: int32): (r: map<StatType, int32>)
    ensures t in r && BonusOf(r, t) == WrapAdd(BonusOf(bonus, t), delta)
    ensures forall u :: u != t ==> BonusOf(r, u) == BonusOf(bonus, u) && (u in r <==> u in bonus)
  {
    bonus[t := WrapAdd(BonusOf(bonus, t), delta)]
  }

  /** The values a `PlayerStats` changes: the bonus table and current HP/MP. */
  datatype StatState = StatState(bonus: map<StatType, int32>, hp: int32, mp: int32)

  /** `ClampHealth`: current HP into [0, MaxHP] and MP into [0, MaxMP]. */
  function Clamped(b: BaseStats, st: StatState): (r: StatState)
    ensures r.bonus == st.bonus
    ensures StatValue(b, st.bonus, MaxHP) >= 0 ==> 0 <= r.hp <= StatValue(b, st.bonus, MaxHP)
    ensures StatValue(b, st.bonus, MaxMP) >= 0 ==> 0 <= r.mp <= StatValue(b, st.bonus, MaxMP)
    ensures 0 <= st.hp <= StatValue(b, st.bonus, MaxHP) ==> r.hp == st.hp
    ensures 0 <= st.mp <= StatValue(b, st.bonus, MaxMP) ==> r.mp == st.mp
    ensures st.hp < 0 ==> r.hp == 0
    ensures st.mp < 0 ==> r.mp == 0
    ensures 0 <= st.hp && StatValue(b, st.bonus, MaxHP) < st.hp ==> r.hp == StatValue(b, st.bonus, MaxHP)
    ensures 0 <= st.mp && StatValue(b, st.bonus, MaxMP) < st.mp ==> r.mp == StatValue(b, st.bonus, MaxMP)
  {
    st.(hp := Clamp(st.hp, 0, StatValue(b, st.bonus, MaxHP)),
        mp := Clamp(st.mp, 0, StatValue(b, st.bonus, MaxMP)))
  }

  /** The bonus delta of a modifier: its amount when applied, its negation when revoked. */
  function Delta(m: StatsModifier, add: bool): int32
  {
    if add then m.amount else WrapNeg(m.amount)
  }

  /** What one modifier does to the bonus table. */
  function BonusEffect(bonus: map<StatType, int32>, m: Option<StatsModifier>, add: bool): map<StatType, int32>
  {
    if m.Nothing? then bonus else AddBonus(bonus, m.value.statType, Delta(m.value, add))
  }

  /** `ApplyModifier`: a missing modifier changes nothing; otherwise the bonus
      moves by the delta and HP/MP are clamped to the new maxima. */
  function ModifierEffect(b: BaseStats, st: StatState, m: Option<StatsModifier>, add: bool): (r: StatState)
    ensures m.Nothing? ==> r == st
    ensures r.bonus == BonusEffect(st.bonus, m, add)
    ensures m.Some? && StatValue(b, r.bonus, MaxHP) >= 0 ==> 0 <= r.hp <= StatValue(b, r.bonus, MaxHP)
    ensures m.Some? && StatValue(b, r.bonus, MaxMP) >= 0 ==> 0 <= r.mp <= StatValue(b, r.bonus, MaxMP)
  {
    if m.Nothing? then st
    else Clamped(b, st.(bonus := BonusEffect(st.bonus, m, add)))
  }

  /** `ApplyModifiers`: `ApplyModifier` on each entry, in list order. */
  function ModifiersEffect(b: BaseStats, st: StatState, ms: seq<Option<StatsModifier>>, add: bool): StatState
    decreases |ms|
  {
    if ms == [] then st
    else ModifierEffect(b, ModifiersEffect(b, st, ms[..|ms| - 1], add), ms[|ms| - 1], add)
  }

  /** What a list of modifiers does to the bonus table. */
  function BonusesAfter(bonus: map<StatType, int32>, ms: seq<Option<StatsModifier>>, add: bool): map<StatType, int32>
    decreases |ms|
  {
    if ms == [] then bonus
    else BonusEffect(BonusesAfter(bonus, ms[..|ms| - 1], add), ms[|ms| - 1], add)
  }

  /** The bonus table after a list does not depend on the HP/MP clamps in between. */
  lemma {:induction false} ModifiersBonus(b: BaseStats, st: StatState, ms: seq<Option<StatsModifier>>, add: bool)
    ensures ModifiersEffect(b, st, ms, add).bonus == BonusesAfter(st.bonus, ms, add)
    decreases |ms|
  {
    if ms != [] {
      ModifiersBonus(b, st, ms[..|ms| - 1], add);
    }
  }

  /** The sum of the amounts the list carries for stat `t`. */
  function Total(ms: seq<Option<StatsModifier>>, t: StatType): int
    decreases |ms|
  {
    if ms == [] then 0
    else
      var last := ms[|ms| - 1];
      Total(ms[..|ms| - 1], t) + (if last.Some? && last.value.statType == t then last.value.amount as int else 0)
  }

  /** Applying then revoking one modifier gives every stat its old bonus back. */
  lemma {:induction false} RevokeRestoresBonus(b: BaseStats, st: StatState, m: Option<StatsModifier>, t: StatType)
    ensures BonusOf(ModifierEffect(b, ModifierEffect(b, st, m, true), m, false).bonus, t) == BonusOf(st.bonus, t)
  {
    var applied := ModifierEffect(b, st, m, true);
    var revoked := ModifierEffect(b, applied, m, false);
    if m.Some? && m.value.statType == t {
      var x := BonusOf(st.bonus, t);
      assert BonusOf(applied.bonus, t) == WrapAdd(x, m.value.amount);
      assert BonusOf(revoked.bonus, t) == WrapAdd(BonusOf(applied.bonus, t), WrapNeg(m.value.amount));
      AddThenSubtract(x, m.value.amount);
    } else if m.Some? {
      assert BonusOf(applied.bonus, t) == BonusOf(st.bonus, t);
    }
  }

  /** The signed amount one entry contributes to stat `t`. */
  function Contribution(m: Option<StatsModifier>, add: bool, t: StatType): int
  {
    if m.Some? && m.value.statType == t then (if add then m.value.amount as int else -(m.value.amount as int)) else 0
  }

  /** One modifier moves the bonus of `t` by its contribution, wrapped. */
  lemma {:induction false} BonusAfterModifier(bonus: map<StatType, int32>, m: Option<StatsModifier>, add: bool, t: StatType)
    ensures BonusOf(BonusEffect(bonus, m, add), t) == Wrap(BonusOf(bonus, t) + Contribution(m, add, t))
  {
    if m.Some? && m.value.statType == t {
      var x := BonusOf(bonus, t);
      assert BonusOf(BonusEffect(bonus, m, add), t) == WrapAdd(x, Delta(m.value, add));
      WrapSigned(x, m.value.amount, add);
    }
  }

  /** The list's total for `t`, signed by apply or revoke. */
  function SignedTotal(ms: seq<Option<StatsModifier>>, add: bool, t: StatType): int
  {
    if add then Total(ms, t) else -Total(ms, t)
  }

  /** A list of modifiers moves each bonus by the list's total for that stat,
      wrapped to 32 bits. */
  lemma {:induction false} BonusAfterModifiers(bonus: map<StatType, int32>, ms: seq<Option<StatsModifier>>, add: bool, t: StatType)
    ensures BonusOf(BonusesAfter(bonus, ms, add), t) == Wrap(BonusOf(bonus, t) + SignedTotal(ms, add, t))
    decreases |ms|
  {
    if ms != [] {
      var init := ms[..|ms| - 1];
      var last := ms[|ms| - 1];
      var before := BonusOf(bonus, t);
      var sum := SignedTotal(init, add, t);
      var c := Contribution(last, add, t);
      var mid := BonusesAfter(bonus, init, add);
      BonusAfterModifiers(bonus, init, add, t);
      BonusAfterModifier(mid, last, add, t);
      assert BonusesAfter(bonus, ms, add) == BonusEffect(mid, last, add);
      WrapAccumulate(BonusOf(mid, t), BonusOf(BonusesAfter(bonus, ms, add), t), before + sum, c);
      assert SignedTotal(ms, add, t) == sum + c;
    }
  }

  /** Equipping and then unequipping the same list restores every bonus,
      however the HP/MP clamps went in between. */
  lemma {:induction false} RevokeAllRestoresBonuses(b: BaseStats, st: StatState, ms: seq<Option<StatsModifier>>, t: StatType)
    ensures BonusOf(ModifiersEffect(b, ModifiersEffect(b, st, ms, true), ms, false).bonus, t) == BonusOf(st.bonus, t)
  {
    var mid := ModifiersEffect(b, st, ms, true);
    ModifiersBonus(b, st, ms, true);
    ModifiersBonus(b, mid, ms, false);
    BonusAfterModifiers(st.bonus, ms, true, t);
    BonusAfterModifiers(mid.bonus, ms, false, t);
    var x := BonusOf(st.bonus, t);
    assert BonusOf(mid.bonus, t) == Wrap(x + Total(ms, t));
    WrapInner(x + Total(ms, t), -Total(ms, t));
    assert x + Total(ms, t) + -Total(ms, t) == x;
  }

  /** HP lost to a clamp is not given back: lowering MaxHP by `k` from full
      health and then revoking the modifier leaves HP `k` short of the maximum. */
  lemma {:induction false} RevokeKeepsClampedHP(b: BaseStats, st: StatState, k: int32)
    requires 0 < k <= st.hp
    requires BonusOf(st.bonus, MaxHP) - k >= MinValue
    requires b.maxHP as int + BonusOf(st.bonus, MaxHP) as int == st.hp as int
    ensures var m := Some(StatsModifier(MaxHP, -k));
            var after := ModifierEffect(b, ModifierEffect(b, st, m, true), m, false);
            after.hp == st.hp - k && StatValue(b, after.bonus, MaxHP) == st.hp
  {
    var m := Some(StatsModifier(MaxHP, -k));
    var lowered := ModifierEffect(b, st, m, true);
    assert BonusOf(lowered.bonus, MaxHP) == BonusOf(st.bonus, MaxHP) - k;
    assert StatValue(b, lowered.bonus, MaxHP) == st.hp - k;
    assert lowered.hp == st.hp - k;
    RevokeRestoresBonus(b, st, m, MaxHP);
    var after := ModifierEffect(b, lowered, m, false);
    assert StatValue(b, after.bonus, MaxHP) == st.hp;
  }

  class PlayerStats {
    const bases: BaseStats
    var bonusStats: map<StatType, int32>
    var currentHP: int32
    var currentMP: int32

    /** Construction followed by `Awake`: no bonuses, full HP and MP. */
    constructor (bases: BaseStats)
      ensures this.bases == bases && bonusStats == map[]
      ensures currentHP == bases.maxHP && currentMP == bases.maxMP
    {
      this.bases := bases;
      bonusStats := map[];
      currentHP := WrapAdd(bases.maxHP, 0);
      currentMP := WrapAdd(bases.maxMP, 0);
    }

    function State(): StatState
      reads this
    {
      StatState(bonusStats, currentHP, currentMP)
    }

    function GetBonus(t: StatType): (v: int32)
      reads this
      ensures t !in bonusStats ==> v == 0
    {
      BonusOf(bonusStats, t)
    }

    /** The getters `MaxHP`, `MaxMP`, `Attack`, `Strength`, `Agility`, `Intellect`, `Vitality`. */
    function Stat(t: StatType): (v: int32)
      reads this
      requires IsIntegerStat(t)
      ensures t !in bonusStats ==> v == BaseOf(bases, t)
      ensures MinValue <= BaseOf(bases, t) + GetBonus(t) <= MaxValue ==> v == BaseOf(bases, t) + GetBonus(t)
    {
      StatValue(bases, bonusStats, t)
    }

    /** HP drops by `amount`; anything at or below 0 becomes 0. */
    method TakeDamage(amount: int32)
      modifies this`currentHP
      ensures currentHP >= 0
      ensures var hp := WrapSub(old(currentHP), amount); currentHP == if hp <= 0 then 0 else hp
      ensures MinValue <= old(currentHP) - amount <= MaxValue
              ==> currentHP == if old(currentHP) - amount <= 0 then 0 else old(currentHP) - amount
    {
      currentHP := WrapSub(currentHP, amount);
      if currentHP <= 0 {
        currentHP := 0;
      }
    }

    /** A non-positive amount is ignored; otherwise HP rises, clamped to [0, MaxHP]. */
    method Heal(amount: int32)
      modifies this`currentHP
      ensures amount <= 0 ==> currentHP == old(currentHP)
      ensures amount > 0 ==> currentHP == Clamp(WrapAdd(old(currentHP), amount), 0, Stat(MaxHP))
      ensures amount > 0 && Stat(MaxHP) >= 0 ==> 0 <= currentHP <= Stat(MaxHP)
      ensures amount > 0 && 0 <= WrapAdd(old(currentHP), amount) && Stat(MaxHP) < WrapAdd(old(currentHP), amount)
              ==> currentHP == Stat(MaxHP)
    {
      if amount <= 0 { return; }
      currentHP := Clamp(WrapAdd(currentHP, amount), 0, Stat(MaxHP));
    }

    method AddBonusOf(t: StatType, delta: int32)
      modifies this`bonusStats
      ensures bonusStats == AddBonus(old(bonusStats), t, delta)
    {
      if t !in bonusStats {
        bonusStats := bonusStats[t := 0];
      }
      bonusStats := bonusStats[t := WrapAdd(bonusStats[t], delta)];
    }

    method ClampHealth()
      modifies this`currentHP, this`currentMP
      ensures State() == Clamped(bases, old(State()))
    {
      currentHP := Clamp(currentHP, 0, Stat(MaxHP));
      currentMP := Clamp(currentMP, 0, Stat(MaxMP));
    }

    method ApplyModifier(modifier: Option<StatsModifier>, add: bool)
      modifies this
      ensures State() == ModifierEffect(bases, old(State()), modifier, add)
    {
      if modifier.Nothing? { return; }
      var delta := if add then modifier.value.amount else WrapNeg(modifier.value.amount);
      AddBonusOf(modifier.value.statType, delta);
      ClampHealth();
    }

    /** A missing list is ignored; otherwise each modifier is applied in order. */
    method ApplyModifiers(modifiers: Option<seq<Option<StatsModifier>>>, add: bool)
      modifies this
      ensures modifiers.Nothing? ==> State() == old(State())
      ensures modifiers.Some? ==> State() == ModifiersEffect(bases, old(State()), modifiers.value, add)
    {
      if modifiers.Nothing? { return; }
      var ms := modifiers.value;
      for i := 0 to |ms|
        invariant State() == ModifiersEffect(bases, old(State()), ms[..i], add)
      {
        assert ms[..i + 1][..i] == ms[..i];
        ApplyModifier(ms[i], add);
      }
      assert ms[..|ms|] == ms;
    }
  }
}
