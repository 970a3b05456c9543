/**
 Properties of the `Contato` entity: the full validation agrees with the
 per-field guards, the constructor agrees with the mutators, each mutator is
 idempotent and writes only its own field, and a run of mutators behaves like
 the plain assignments it guards.
 */
module ContatoPropriedades {
  import opened Core
  import opened Contatos

  /** The guard of a mutator call; it depends on the argument only, never on the contact. */
  predicate Permitida(v: Validacoes, a: Alteracao) {
    match a
    case DefinirDdd(d) => v.tamanhoOk(d, 2, 2)
    case DefinirNumero(t) => v.tamanhoOk(t, 9, 9)
    case DefinirEmail(e) => v.naoVazio(e)
    case DefinirCliente(cl) => v.clienteNaoNulo(cl) && v.idNaoNulo(cl.id)
  }

  /** The assignment a mutator performs once its guard has passed. */
  function Atribuir(c: Contato, a: Alteracao): Contato {
    match a
    case DefinirDdd(d) => c.(ddd := d)
    case DefinirNumero(t) => c.(telefone := t)
    case DefinirEmail(e) => c.(email := e)
    case DefinirCliente(cl) => c.(cliente := cl, clienteId := cl.id)
  }

  /** The assignments of a whole run, with no guard at all. */
  function AtribuirTodas(c: Contato, alts: seq<Alteracao>): Contato
    decreases |alts|
  {
    if alts == [] then c else AtribuirTodas(Atribuir(c, alts[0]), alts[1..])
  }

  /** `a` and `b` agree on field `f` (both owner fields for `CampoCliente`). */
  predicate MesmoCampo(a: Contato, b: Contato, f: Campo) {
    match f
    case CampoDdd => a.ddd == b.ddd
    case CampoTelefone => a.telefone == b.telefone
    case CampoEmail => a.email == b.email
    case CampoCliente => a.cliente == b.cliente && a.clienteId == b.clienteId
  }

  /**
   `Validar` is the conjunction of the guards the mutators apply, with the
   same bounds: on a coupled contact it passes exactly when every mutator
   would accept the value the field already holds.
   */
  lemma ValidarAgreesWithGuards(v: Validacoes, c: Contato)
    requires Acoplado(c)
    ensures Valido(v, c) <==>
              && AlterarDdd(v, c, c.ddd).Success?
              && AlterarNumero(v, c, c.telefone).Success?
              && AlterarEmail(v, c, c.email).Success?
              && AlterarCliente(v, c, c.cliente).Success?
  {
  }

  /** A single mutator call is its guard followed by its assignment. */
  lemma AlterarIsGuardedAssignment(v: Validacoes, c: Contato, a: Alteracao)
    ensures Alterar(v, c, a).Success? <==> Permitida(v, a)
    ensures Alterar(v, c, a).Success? ==> Alterar(v, c, a).value == Atribuir(c, a)
  {
  }

  /**
   A run of mutators succeeds exactly when every call's guard passes, and then
   ends in the state the plain assignments produce.
   */
  lemma {:induction false} AplicarIsGuardedAssignments(v: Validacoes, c: Contato, alts: seq<Alteracao>)
    ensures Aplicar(v, c, alts).Success? <==> forall i | 0 <= i < |alts| :: Permitida(v, alts[i])
    ensures Aplicar(v, c, alts).Success? ==> Aplicar(v, c, alts).value == AtribuirTodas(c, alts)
    decreases |alts|
  {
    if alts != [] {
      AlterarIsGuardedAssignment(v, c, alts[0]);
      AplicarIsGuardedAssignments(v, Atribuir(c, alts[0]), alts[1..]);
      assert forall i | 1 <= i < |alts| :: alts[i] == alts[1..][i - 1];
    }
  }

  /** Assignments to other fields leave field `f` as it was. */
  lemma {:induction false} AtribuirTodasFrame(c: Contato, alts: seq<Alteracao>, f: Campo)
    requires forall i | 0 <= i < |alts| :: CampoDe(alts[i]) != f
    ensures MesmoCampo(c, AtribuirTodas(c, alts), f)
    decreases |alts|
  {
    if alts != [] {
      assert CampoDe(alts[0]) != f;
      assert forall i | 0 <= i < |alts[1..]| :: alts[1..][i] == alts[i + 1];
      AtribuirTodasFrame(Atribuir(c, alts[0]), alts[1..], f);
    }
  }

  /** Nothing else changes: a successful run leaves every field it never names untouched. */
  lemma AplicarFrame(v: Validacoes, c: Contato, alts: seq<Alteracao>, f: Campo)
    requires forall i | 0 <= i < |alts| :: CampoDe(alts[i]) != f
    ensures Aplicar(v, c, alts).Success? ==> MesmoCampo(c, Aplicar(v, c, alts).value, f)
  {
    AplicarIsGuardedAssignments(v, c, alts);
    AtribuirTodasFrame(c, alts, f);
  }

  /** Calling a mutator twice with the same argument is the same as calling it once. */
  lemma AlterarIdempotent(v: Validacoes, c: Contato, a: Alteracao)
    ensures Aplicar(v, c, [a, a]) == Aplicar(v, c, [a])
  {
  }

  /**
   Re-setting a field to the value it holds changes nothing; on a valid,
   coupled contact every such call succeeds.
   */
  lemma ResetIsNoOp(v: Validacoes, c: Contato)
    requires Acoplado(c)
    ensures AlterarDdd(v, c, c.ddd).Success? ==> AlterarDdd(v, c, c.ddd).value == c
    ensures AlterarNumero(v, c, c.telefone).Success? ==> AlterarNumero(v, c, c.telefone).value == c
    ensures AlterarEmail(v, c, c.email).Success? ==> AlterarEmail(v, c, c.email).value == c
    ensures AlterarCliente(v, c, c.cliente).Success? ==> AlterarCliente(v, c, c.cliente).value == c
    ensures Valido(v, c) ==>
              && AlterarDdd(v, c, c.ddd) == Success(c)
              && AlterarNumero(v, c, c.telefone) == Success(c)
              && AlterarEmail(v, c, c.email) == Success(c)
              && AlterarCliente(v, c, c.cliente) == Success(c)
  {
  }

  /** Mutators of different fields can be called in either order. */
  lemma DistinctFieldsCommute(v: Validacoes, c: Contato, a: Alteracao, b: Alteracao)
    requires CampoDe(a) != CampoDe(b)
    ensures Aplicar(v, c, [a, b]).Success? <==> Aplicar(v, c, [b, a]).Success?
    ensures Aplicar(v, c, [a, b]).Success? ==> Aplicar(v, c, [a, b]).value == Aplicar(v, c, [b, a]).value
  {
  }

  /**
   The constructor applies the same per-field checks as the mutators: from
   any starting contact, re-parenting and then setting the area code, number
   and e-mail succeeds exactly when the constructor does, and yields the same
   contact.
   */
  lemma NovoAgreesWithMutators(v: Validacoes, c: Contato, ddd: int, telefone: int, email: string, cliente: Cliente)
    ensures var run := Aplicar(v, c, [DefinirCliente(cliente), DefinirDdd(ddd), DefinirNumero(telefone), DefinirEmail(email)]);
            && (Novo(v, ddd, telefone, email, cliente).Success? <==> run.Success?)
            && (run.Success? ==> Novo(v, ddd, telefone, email, cliente).value == run.value)
  {
    var alts := [DefinirCliente(cliente), DefinirDdd(ddd), DefinirNumero(telefone), DefinirEmail(email)];
    AplicarIsGuardedAssignments(v, c, alts);
    var c1 := Atribuir(c, alts[0]);
    var c2 := Atribuir(c1, DefinirDdd(ddd));
    var c3 := Atribuir(c2, DefinirNumero(telefone));
    var c4 := Atribuir(c3, DefinirEmail(email));
    assert alts[1..] == [DefinirDdd(ddd), DefinirNumero(telefone), DefinirEmail(email)];
    assert alts[1..][1..] == [DefinirNumero(telefone), DefinirEmail(email)];
    assert alts[1..][1..][1..] == [DefinirEmail(email)];
    assert alts[1..][1..][1..][1..] == [];
    assert AtribuirTodas(c, alts) == AtribuirTodas(c1, alts[1..]);
    assert AtribuirTodas(c1, alts[1..]) == AtribuirTodas(c2, alts[1..][1..]);
    assert AtribuirTodas(c2, alts[1..][1..]) == AtribuirTodas(c3, alts[1..][1..][1..]);
    assert AtribuirTodas(c3, alts[1..][1..][1..]) == c4;
    assert c4 == Contato(cliente.id, ddd, telefone, email, cliente);
  }
}
