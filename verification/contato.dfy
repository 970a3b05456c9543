/**
 The `Contato` (contact) entity of the registration domain: an area code
 (`ddd`), a phone number (`telefone`), an e-mail address and the customer
 (`cliente`) that owns the contact, referenced both by value and by identity
 (`clienteId`).

 The entity is an immutable value here: the constructor and each mutator are
 pure functions that either return the new contact or refuse with the set of
 validation rules that failed.
 */
module Contatos {
  import opened Core

  /** The owning customer, reduced to its identity. */
  datatype Cliente = Cliente(id: Guid)

  /**
   The validation primitives the entity relies on. Their definitions are not
   part of this model, so they are carried as arbitrary predicates:
   - `tamanhoOk(v, min, max)`: the length check applied to an integer field;
   - `naoVazio(s)`: the non-empty check on a string;
   - `clienteNaoNulo(c)`, `idNaoNulo(g)`: the non-null checks on the
     customer reference and on its identity.
   Nothing is assumed about them; every property below holds for all choices.
   */
  datatype Validacoes = Validacoes(
    tamanhoOk: (int, int, int) -> bool,
    naoVazio: string -> bool,
    clienteNaoNulo: Cliente -> bool,
    idNaoNulo: Guid -> bool)

  /** The rules a contact can break, one per check. */
  datatype Regra = DddTamanho | NumeroTamanho | EmailVazio | ClienteNulo | ClienteIdNulo

  datatype Contato = Contato(
    clienteId: Guid,
    ddd: int,
    telefone: int,
    email: string,
    cliente: Cliente)

  /** The coupling between the two views of the owner. */
  predicate Acoplado(c: Contato) {
    c.clienteId == c.cliente.id
  }

  /** The rules that `Validar` finds broken in `c`, with its own bounds. */
  function Violacoes(v: Validacoes, c: Contato): (r: set<Regra>)
    ensures DddTamanho in r <==> !v.tamanhoOk(c.ddd, 2, 2)
    ensures NumeroTamanho in r <==> !v.tamanhoOk(c.telefone, 9, 9)
    ensures EmailVazio in r <==> !v.naoVazio(c.email)
    ensures ClienteNulo in r <==> !v.clienteNaoNulo(c.cliente)
    ensures ClienteIdNulo in r <==> !v.idNaoNulo(c.clienteId)
  {
    (if v.tamanhoOk(c.ddd, 2, 2) then {} else {DddTamanho})
    + (if v.tamanhoOk(c.telefone, 9, 9) then {} else {NumeroTamanho})
    + (if v.naoVazio(c.email) then {} else {EmailVazio})
    + (if v.clienteNaoNulo(c.cliente) then {} else {ClienteNulo})
    + (if v.idNaoNulo(c.clienteId) then {} else {ClienteIdNulo})
  }

  /** `Validar` passes exactly when no rule is broken. */
  predicate Valido(v: Validacoes, c: Contato) {
    Violacoes(v, c) == {}
  }

  /**
   The public constructor: stores the arguments, takes the owner's identity
   from the owner itself, then runs the full validation.
   */
  function Novo(v: Validacoes, ddd: int, telefone: int, email: string, cliente: Cliente)
    : (r: Result<Contato, set<Regra>>)
    ensures r.Success? <==>
              && v.tamanhoOk(ddd, 2, 2)
              && v.tamanhoOk(telefone, 9, 9)
              && v.naoVazio(email)
              && v.clienteNaoNulo(cliente)
              && v.idNaoNulo(cliente.id)
    ensures r.Success? ==>
              && r.value.ddd == ddd
              && r.value.telefone == telefone
              && r.value.email == email
              && r.value.cliente == cliente
              && r.value.clienteId == cliente.id
              && Acoplado(r.value)
              && Valido(v, r.value)
    ensures r.Failure? ==>
              && r.error != {}
              && (DddTamanho in r.error <==> !v.tamanhoOk(ddd, 2, 2))
              && (NumeroTamanho in r.error <==> !v.tamanhoOk(telefone, 9, 9))
              && (EmailVazio in r.error <==> !v.naoVazio(email))
              && (ClienteNulo in r.error <==> !v.clienteNaoNulo(cliente))
              && (ClienteIdNulo in r.error <==> !v.idNaoNulo(cliente.id))
  {
    var c := Contato(cliente.id, ddd, telefone, email, cliente);
    var falhas := Violacoes(v, c);
    if falhas == {} then Success(c) else Failure(falhas)
  }

  /** Replaces the area code after checking its length against (2, 2). */
  function AlterarDdd(v: Validacoes, c: Contato, ddd: int): (r: Result<Contato, set<Regra>>)
    ensures r.Success? <==> v.tamanhoOk(ddd, 2, 2)
    ensures r.Success? ==>
              && r.value.ddd == ddd
              && r.value.telefone == c.telefone
              && r.value.email == c.email
              && r.value.cliente == c.cliente
              && r.value.clienteId == c.clienteId
    ensures r.Failure? ==> r.error == {DddTamanho}
  {
    if v.tamanhoOk(ddd, 2, 2) then Success(c.(ddd := ddd)) else Failure({DddTamanho})
  }

  /** Replaces the phone number after checking its length against (9, 9). */
  function AlterarNumero(v: Validacoes, c: Contato, telefone: int): (r: Result<Contato, set<Regra>>)
    ensures r.Success? <==> v.tamanhoOk(telefone, 9, 9)
    ensures r.Success? ==>
              && r.value.ddd == c.ddd
              && r.value.telefone == telefone
              && r.value.email == c.email
              && r.value.cliente == c.cliente
              && r.value.clienteId == c.clienteId
    ensures r.Failure? ==> r.error == {NumeroTamanho}
  {
    if v.tamanhoOk(telefone, 9, 9) then Success(c.(telefone := telefone)) else Failure({NumeroTamanho})
  }

  /** Replaces the e-mail address after checking that it is not empty. */
  function AlterarEmail(v: Validacoes, c: Contato, email: string): (r: Result<Contato, set<Regra>>)
    ensures r.Success? <==> v.naoVazio(email)
    ensures r.Success? ==>
              && r.value.ddd == c.ddd
              && r.value.telefone == c.telefone
              && r.value.email == email
              && r.value.cliente == c.cliente
              && r.value.clienteId == c.clienteId
    ensures r.Failure? ==> r.error == {EmailVazio}
  {
    if v.naoVazio(email) then Success(c.(email := email)) else Failure({EmailVazio})
  }

  /**
   Re-parents the contact after checking the new customer and its identity;
   both views of the owner move together.
   */
  function AlterarCliente(v: Validacoes, c: Contato, cliente: Cliente): (r: Result<Contato, set<Regra>>)
    ensures r.Success? <==> v.clienteNaoNulo(cliente) && v.idNaoNulo(cliente.id)
    ensures r.Success? ==>
              && r.value.ddd == c.ddd
              && r.value.telefone == c.telefone
              && r.value.email == c.email
              && r.value.cliente == cliente
              && r.value.clienteId == cliente.id
              && Acoplado(r.value)
    ensures r.Failure? ==>
              && r.error != {}
              && (ClienteNulo in r.error <==> !v.clienteNaoNulo(cliente))
              && (ClienteIdNulo in r.error <==> !v.idNaoNulo(cliente.id))
              && r.error <= {ClienteNulo, ClienteIdNulo}
  {
    var falhas := (if v.clienteNaoNulo(cliente) then {} else {ClienteNulo})
                  + (if v.idNaoNulo(cliente.id) then {} else {ClienteIdNulo});
    if falhas == {} then Success(c.(cliente := cliente, clienteId := cliente.id))
    else Failure(falhas)
  }

  /** One call of a mutator, as data. */
  datatype Alteracao =
    | DefinirDdd(novoDdd: int)
    | DefinirNumero(novoTelefone: int)
    | DefinirEmail(novoEmail: string)
    | DefinirCliente(novoCliente: Cliente)

  /** The fields a mutator writes; `DefinirCliente` writes both owner fields. */
  datatype Campo = CampoDdd | CampoTelefone | CampoEmail | CampoCliente

  function CampoDe(a: Alteracao): Campo {
    match a
    case DefinirDdd(_) => CampoDdd
    case DefinirNumero(_) => CampoTelefone
    case DefinirEmail(_) => CampoEmail
    case DefinirCliente(_) => CampoCliente
  }

  /** Runs the mutator that `a` names. */
  function Alterar(v: Validacoes, c: Contato, a: Alteracao): (r: Result<Contato, set<Regra>>)
    ensures r.Success? && Acoplado(c) ==> Acoplado(r.value)
    ensures r.Success? && Valido(v, c) ==> Valido(v, r.value)
    ensures r.Failure? ==> r.error != {}
  {
    match a
    case DefinirDdd(d) => AlterarDdd(v, c, d)
    case DefinirNumero(t) => AlterarNumero(v, c, t)
    case DefinirEmail(e) => AlterarEmail(v, c, e)
    case DefinirCliente(cl) => AlterarCliente(v, c, cl)
  }

  /**
   Runs a sequence of mutator calls in order; the first refusal ends the run
   and is its outcome.
   */
  function Aplicar(v: Validacoes, c: Contato, alts: seq<Alteracao>): (r: Result<Contato, set<Regra>>)
    ensures r.Success? && Acoplado(c) ==> Acoplado(r.value)
    ensures r.Success? && Valido(v, c) ==> Valido(v, r.value)
    ensures r.Failure? ==> r.error != {}
    decreases |alts|
  {
    if alts == [] then Success(c)
    else
      match Alterar(v, c, alts[0])
      case Failure(e) => Failure(e)
      case Success(c') => Aplicar(v, c', alts[1..])
  }
}
