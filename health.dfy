/**
 * Hit points of an entity: a maximum, a current value and an invulnerability
 * flag.  The UnityEvents it raises are kept, in order, in `events`; OnDeath
 * stands for the death handling as a whole (the enemy controller's Die
 * included).
 */
module General {

  /** The events Health invokes, with their arguments. */
  datatype HealthEvent =
    | HealthChanged(current: int, max: int)
    | DamageTaken(amount: int)
    | Healed(amount: int)
    | Death

  function Min(a: int, b: int): int { if a <= b then a else b }
  function Max(a: int, b: int): int { if a >= b then a else b }

  class Health {
    var maxHealth: int
    var currentHealth: int
    var isInvulnerable: bool
    var events: seq<HealthEvent>

    /** Health between zero and the maximum. */
    predicate InRange()
      reads this`currentHealth, this`maxHealth
    {
      0 <= currentHealth <= maxHealth
    }

    /** The component with its serialized settings, after Start: full health, announced. */
    constructor (maxHealth: int, isInvulnerable: bool)
      ensures this.maxHealth == maxHealth && currentHealth == maxHealth
      ensures this.isInvulnerable == isInvulnerable
      ensures events == [HealthChanged(maxHealth, maxHealth)]
      ensures maxHealth >= 0 ==> InRange()
    {
      this.maxHealth := maxHealth;
      this.isInvulnerable := isInvulnerable;
      currentHealth := maxHealth;
      events := [HealthChanged(maxHealth, maxHealth)];
    }

    /** SetMaxHealth: a maximum of at least 1, and full health. */
    method SetMaxHealth(value: int)
      modifies this`maxHealth, this`currentHealth, this`events
      ensures maxHealth >= 1 && maxHealth >= value && (value >= 1 ==> maxHealth == value)
      ensures currentHealth == maxHealth && InRange()
      ensures events == old(events) + [HealthChanged(currentHealth, maxHealth)]
    {
      maxHealth := Max(1, value);
      currentHealth := maxHealth;
      events := events + [HealthChanged(currentHealth, maxHealth)];
    }

    /**
     * TakeDamage: nothing while invulnerable; otherwise health drops by the
     * damage but not below zero (a negative damage raises it, past the
     * maximum if large enough), and death handling runs whenever health ends
     * at zero or below, even if it already was.
     */
    method TakeDamage(damage: int)
      modifies this`currentHealth, this`events
      ensures old(isInvulnerable) ==> currentHealth == old(currentHealth) && events == old(events)
      ensures !isInvulnerable ==>
                && currentHealth == Max(old(currentHealth) - damage, 0)
                && events == old(events) + [DamageTaken(old(currentHealth) - currentHealth),
                                            HealthChanged(currentHealth, maxHealth)]
                                        + (if currentHealth <= 0 then [Death] else [])
      ensures old(InRange()) && damage >= 0 ==> InRange()
      ensures !isInvulnerable && damage < 0 ==> currentHealth > old(currentHealth)
    {
      if isInvulnerable {
        return;
      }
      var actualDamage := Min(currentHealth, damage);
      currentHealth := currentHealth - actualDamage;
      events := events + [DamageTaken(actualDamage), HealthChanged(currentHealth, maxHealth)];
      if currentHealth <= 0 {
        Die();
      }
    }

    /**
     * Heal: nothing at zero health or below; otherwise health becomes
     * current + amount capped at the maximum, and the events fire only when
     * health actually went up.  Above the maximum, healing lowers health to it.
     */
    method Heal(amount: int)
      modifies this`currentHealth, this`events
      ensures old(currentHealth) <= 0 ==> currentHealth == old(currentHealth) && events == old(events)
      ensures old(currentHealth) > 0 ==>
                && currentHealth == Min(old(currentHealth) + amount, maxHealth)
                && currentHealth <= maxHealth
                && events == old(events)
                   + (if currentHealth > old(currentHealth)
                      then [Healed(currentHealth - old(currentHealth)), HealthChanged(currentHealth, maxHealth)]
                      else [])
      ensures old(InRange()) && amount >= 0 ==> InRange() && currentHealth >= old(currentHealth)
    {
      if currentHealth <= 0 {
        return;
      }
      var healthBefore := currentHealth;
      currentHealth := Min(currentHealth + amount, maxHealth);
      var actualHealAmount := currentHealth - healthBefore;
      if actualHealAmount > 0 {
        events := events + [Healed(actualHealAmount), HealthChanged(currentHealth, maxHealth)];
      }
    }

    /** Kill: unless invulnerable, health drops to zero and death handling runs. */
    method Kill()
      modifies this`currentHealth, this`events
      ensures old(isInvulnerable) ==> currentHealth == old(currentHealth) && events == old(events)
      ensures !isInvulnerable ==>
                && currentHealth == 0
                && events == old(events) + [DamageTaken(old(currentHealth)), HealthChanged(0, maxHealth), Death]
      ensures old(InRange()) ==> InRange()
    {
      if isInvulnerable {
        return;
      }
      var oldHealth := currentHealth;
      currentHealth := 0;
      events := events + [DamageTaken(oldHealth), HealthChanged(currentHealth, maxHealth)];
      Die();
    }

    /** Die: death handling, only when health is zero or below. */
    method Die()
      modifies this`events
      ensures events == old(events) + (if currentHealth <= 0 then [Death] else [])
    {
      if currentHealth <= 0 {
        events := events + [Death];
      }
    }

    method SetInvulnerable(invulnerable: bool)
      modifies this`isInvulnerable
      ensures isInvulnerable == invulnerable
    {
      isInvulnerable := invulnerable;
    }
  }
}
