/** What programs do to the environment, construct by construct, and what withEnv shows its callback. */
module EnvLaws {
  import opened Wrappers
  import opened EnvSwap

  /** Everywhere but at one variable the two environments agree. */
  ghost predicate OnlyAt(a: Env, b: Env, key: string) {
    forall k: string | k != key :: Lookup(a, k) == Lookup(b, k)
  }

  /** An assignment sets its variable, a deletion removes it, neither touches another or throws; a throw changes
      nothing. */
  lemma Statements(c: Config, env: Env, key: string, value: string)
    ensures var o := Exec(c, Set(key, value), env); !o.threw && Lookup(o.env, key) == Some(value) && OnlyAt(o.env, env, key)
    ensures var o := Exec(c, Delete(key), env); !o.threw && Lookup(o.env, key) == None && OnlyAt(o.env, env, key)
    ensures Exec(c, Throw, env) == Outcome(env, true)
  {
  }

  /** What follows a throw is not run and what follows anything else is; a handler runs exactly after a throw. */
  lemma Control(c: Config, a: Program, b: Program, env: Env)
    ensures var o := Exec(c, a, env);
            && (o.threw ==> Exec(c, Then(a, b), env) == o && Exec(c, Catch(a, b), env) == Exec(c, b, o.env))
            && (!o.threw ==> Exec(c, Then(a, b), env) == Exec(c, b, o.env) && Exec(c, Catch(a, b), env) == o)
    ensures forall test: Env -> bool :: Exec(c, If(test, a, b), env) == Exec(c, if test(env) then a else b, env)
  {
    hide Entered, Restored;
  }

  /** What the callback finds in a variable: the override, else the base value, else nothing if the variable is
      looked after, else what was there. */
  lemma CallbackFinds(c: Config, env: Env, overrides: Overrides, key: string)
    ensures var found := Lookup(Entered(c, env, overrides), key);
            && (key in overrides ==> found == overrides[key])
            && (key !in overrides && key in c.base ==> found == Some(c.base[key]))
            && (key !in overrides && key !in c.base && key in c.Keys() ==> found == None)
            && (key !in overrides && key !in c.base && key !in c.Keys() ==> found == Lookup(env, key))
  {
    hide Entered;
  }

  /** And what is in it afterwards: what was there before if it is looked after, else what the callback left. The
      call throws exactly when its callback does. */
  lemma CallerFinds(c: Config, env: Env, overrides: Overrides, callback: Program, key: string)
    ensures var inner := Exec(c, callback, Entered(c, env, overrides));
            var o := Exec(c, WithEnv(overrides, callback), env);
            && o.threw == inner.threw
            && Lookup(o.env, key) == if key in c.Keys() then Lookup(env, key) else Lookup(inner.env, key)
  {
    hide Entered, Restored;
  }
}
