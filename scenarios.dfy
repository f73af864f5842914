/**
 * Two end-to-end runs of the route table on concrete requests: a client's account
 * lifecycle, and a debt's lifecycle between an admin and its owner.
 */
module Scenarios {
  import opened Wrappers
  import opened Models
  import opened Store
  import opened Passport
  import opened Routes

  /**
   * alice registers and logs in. GET /user/:id sits behind isAdmin, so she cannot
   * read her own profile (500 as written, findByPk being undefined). She deletes
   * her account, which empties the store, and her token stops resolving: 401.
   */
  lemma AccountLifecycle()
    ensures var e := Env(7, "a1", false, true);
            var s0 := State(map[], map[]);
            var o1 := Step(s0, PostRegister("alice", "p1", "p1", "cliente"), e);
            var token := Payload("a1", Cliente);
            && o1.response.code == 201
            && o1.state == State(map["a1" := User("alice", Hash("p1", 7), Cliente)], map[])
            && Valid(o1.state)
            && Step(o1.state, PostLogin("alice", "p1"), e).response
                 == Response(200, LoggedIn(token, Cliente, "a1", "alice"))
            && Step(o1.state, GetUser(Some(token), "a1"), e).response.code == 500
            && Step(o1.state, DeleteUser(Some(token), "a1"), e)
                 == Outcome(Response(200, Msg(UserAndDebtsDeleted)), s0)
            && Step(s0, GetUser(Some(token), "a1"), e).response.code == 401
  {
    var e := Env(7, "a1", false, true);
    var s0 := State(map[], map[]);
    assert !UsernameTaken(s0.users, "alice");
    var s1 := Step(s0, PostRegister("alice", "p1", "p1", "cliente"), e).state;
    assert s1 == State(map["a1" := User("alice", Hash("p1", 7), Cliente)], map[]);
    assert UsernameTaken(s1.users, "alice") by {
      assert s1.users["a1"].username == "alice";
    }
    assert s1.users - {"a1"} == map[];
  }

  // A store with an admin, root, and a client, alice (id a1), for a debt's lifecycle.
  const root := User("root", Hash("pw", 1), Admin)
  const alice := User("alice", Hash("p1", 7), Cliente)
  const rent := Debt("a1", "Rent", 1200, "2024-01-01", Pendente)
  const env := Env(0, "d1", false, true)
  const adminToken := Some(Payload("root", Admin))
  const aliceToken := Some(Payload("a1", Cliente))

  const people := map["root" := root, "a1" := alice]

  lemma ScenarioStoresValid()
    ensures Valid(State(people, map[]))
    ensures Valid(State(people, map["d1" := rent]))
    ensures Valid(State(people, map["d1" := rent.(status := Pago)]))
  {
    assert people["root"].username != people["a1"].username;
  }

  /** The admin adds a debt for alice: 201, status pendente. */
  lemma AdminAddsDebt()
    ensures Valid(State(people, map[]))
    ensures Step(State(people, map[]), PostDebt(adminToken, "a1", "Rent", 1200, "2024-01-01"), env)
         == Outcome(Response(201, DebtDocument("d1", rent)), State(people, map["d1" := rent]))
  {
    ScenarioStoresValid();
  }

  /** alice marks her debt paid. */
  lemma OwnerPaysDebt()
    ensures Valid(State(people, map["d1" := rent]))
    ensures Step(State(people, map["d1" := rent]), PutDebtStatus(aliceToken, "d1", "pago"), env)
         == Outcome(Response(200, DebtDocument("d1", rent.(status := Pago))),
                    State(people, map["d1" := rent.(status := Pago)]))
  {
    ScenarioStoresValid();
  }

  /** The admin replaces every field of the debt; alice's own attempt is refused before anything else. */
  lemma OnlyAdminEditsDebt()
    ensures Valid(State(people, map["d1" := rent.(status := Pago)]))
    ensures Step(State(people, map["d1" := rent.(status := Pago)]),
                 PutDebtEdit(adminToken, "d1", "a1", "Rent", 1300, "2024-02-01", "agendado"), env).state.debts
         == map["d1" := Debt("a1", "Rent", 1300, "2024-02-01", Agendado)]
    ensures Step(State(people, map["d1" := rent.(status := Pago)]),
                 PutDebtEdit(aliceToken, "d1", "a1", "Rent", 1, "2024-02-01", "pago"), env)
         == Outcome(Response(403, Msg(OnlyAdminsEditDebts)), State(people, map["d1" := rent.(status := Pago)]))
  {
    ScenarioStoresValid();
  }
}
