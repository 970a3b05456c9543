# Contato: a verified model of the contact entity

This project models the `Contato` (contact) entity of a customer/contact
registration domain. A contact holds an area code (`Ddd`), a phone number
(`Telefone`), an e-mail address (`Email`), the owning customer (`Cliente`)
and that customer's identity (`ClienteId`). It is built by a constructor that
stores its arguments and then runs the full validation (`Validar`), and it is
changed by four guarded mutators (`AlterarDdd`, `AlterarNumero`,
`AlterarEmail`, `AlterarCliente`). Each mutator checks its own argument and
only then writes its own field.

The model is functional:

- `Contato` is an immutable datatype.
- The constructor (`Novo`) and each mutator are pure functions returning
  `Success(contact)` or `Failure(rules)`, where `rules` is the set of
  validation rules (`Regra`) the operation checks that fail.
- The validation primitives of `Validacoes` are not part of this model. They
  are carried as a record of arbitrary predicates (`Validacoes` in
  `contato.dfy`) passed to every operation: `tamanhoOk(value, min, max)`,
  `naoVazio(s)`, `clienteNaoNulo(c)` and `idNaoNulo(g)`. Nothing is assumed
  about them. In particular, `tamanhoOk` is not read as a digit count, so
  every property holds for every definition of the primitives.
- `Cliente` is a record carrying only its `id`.

Files:

- `core.dfy` (module `Core`): the `Guid` identity and the `Result` outcome.
- `contato.dfy` (module `Contatos`): the entity, `Validar` (as `Violacoes` and
  `Valido`), the constructor, the four mutators, and `Aplicar`. `Aplicar` runs
  a sequence of mutator calls and stops at the first refusal.
- `propriedades.dfy` (module `ContatoPropriedades`): reference definitions and
  lemmas. `Permitida` is a call's guard. `Atribuir` and `AtribuirTodas` are the
  plain assignments, with no guard. The lemmas cover:
  - `Validar` agrees with the mutator guards;
  - the constructor agrees with the mutators;
  - every mutator is idempotent;
  - re-setting a field to its current value is a no-op;
  - mutators of different fields commute;
  - a run of mutators changes only the fields it names.

The two bounds appear twice in the source: in each mutator's guard and again
in `Validar`. The model keeps both copies, and `ValidarAgreesWithGuards`
proves that they agree. The error text at lines 29 and 55 says "3 dígitos",
but the bounds passed are (2, 2). The model uses the bounds.

## Model

| member | source | states |
|---|---|---|
| Contatos.Violacoes | src/CQRS.Cadastro.Domain/Objects/Contato.cs:53-60 | each of the five rules is reported exactly when its check fails: Ddd against (2,2), Telefone against (9,9), Email non-empty, Cliente non-null, ClienteId non-null |
| Contatos.Novo | src/CQRS.Cadastro.Domain/Objects/Contato.cs:16-25 | succeeds exactly when all five checks pass on the arguments (ClienteId taken from cliente.Id). On success it stores ddd, telefone, email and cliente as given, sets ClienteId to cliente.Id (so the coupling holds), and the result passes Validar. On failure the error set is non-empty and names exactly the failing rules |
| Contatos.AlterarDdd | src/CQRS.Cadastro.Domain/Objects/Contato.cs:27-31 | succeeds exactly when the new area code passes the (2,2) length check. On success Ddd is the argument and ClienteId, Telefone, Email and Cliente are unchanged. On failure the only rule reported is the Ddd rule |
| Contatos.AlterarNumero | src/CQRS.Cadastro.Domain/Objects/Contato.cs:33-37 | succeeds exactly when the new number passes the (9,9) length check. On success only Telefone changes. On failure only the number rule is reported |
| Contatos.AlterarEmail | src/CQRS.Cadastro.Domain/Objects/Contato.cs:39-43 | succeeds exactly when the new e-mail passes the non-empty check. On success only Email changes. On failure only the e-mail rule is reported |
| Contatos.AlterarCliente | src/CQRS.Cadastro.Domain/Objects/Contato.cs:45-51 | succeeds exactly when the new customer and its Id pass the non-null checks. On success Cliente and ClienteId both reflect the new customer, so ClienteId == Cliente.Id, and Ddd, Telefone and Email are unchanged. On failure exactly the failing owner rules are reported |
| Contatos.Alterar | src/CQRS.Cadastro.Domain/Objects/Contato.cs:27-51 | a contact that passes Validar still passes it after any successful mutator, and the ClienteId/Cliente.Id coupling survives any successful mutator |
| Contatos.Aplicar | src/CQRS.Cadastro.Domain/Objects/Contato.cs:27-51 | over any sequence of successful mutator calls, validity under Validar and the ClienteId/Cliente.Id coupling are preserved, and a refusal always names at least one rule |
| ContatoPropriedades.ValidarAgreesWithGuards | src/CQRS.Cadastro.Domain/Objects/Contato.cs:27-60 | on a coupled contact, Validar passes exactly when every mutator accepts the value its field already holds. So Validar uses the same checks and the same bounds (2,2) and (9,9) as the guards |
| ContatoPropriedades.AlterarIsGuardedAssignment | src/CQRS.Cadastro.Domain/Objects/Contato.cs:27-51 | a mutator call succeeds exactly when its guard holds, and the guard depends only on the argument. On success the result is the plain assignment of that one field |
| ContatoPropriedades.AplicarIsGuardedAssignments | src/CQRS.Cadastro.Domain/Objects/Contato.cs:27-51 | a run of mutator calls succeeds exactly when every call's guard holds. It then ends in the state the unguarded assignments produce |
| ContatoPropriedades.AtribuirTodasFrame | src/CQRS.Cadastro.Domain/Objects/Contato.cs:27-51 | assignments that never name a field leave that field as it was |
| ContatoPropriedades.AplicarFrame | src/CQRS.Cadastro.Domain/Objects/Contato.cs:27-51 | nothing else changes: a successful run of mutators leaves every field it never names unchanged. Re-parenting counts as writing both Cliente and ClienteId |
| ContatoPropriedades.AlterarIdempotent | src/CQRS.Cadastro.Domain/Objects/Contato.cs:27-51 | calling any mutator twice with the same argument has the same outcome as calling it once |
| ContatoPropriedades.ResetIsNoOp | src/CQRS.Cadastro.Domain/Objects/Contato.cs:27-51 | on a coupled contact, setting a field to its current value returns the same contact whenever it succeeds. If the contact passes Validar, every such call succeeds |
| ContatoPropriedades.DistinctFieldsCommute | src/CQRS.Cadastro.Domain/Objects/Contato.cs:27-51 | two mutators on different fields succeed in one order exactly when they succeed in the other, and both orders give the same contact |
| ContatoPropriedades.NovoAgreesWithMutators | src/CQRS.Cadastro.Domain/Objects/Contato.cs:16-60 | the constructor and the mutators apply the same per-field checks. From any contact, re-parenting and then setting Ddd, Telefone and Email succeeds exactly when the constructor does, and yields the same contact |

## Left out

- The web controller (`src/CQRS.WebApp.MVC/Controllers/ClientesController.cs`) is not modelled. It is HTTP routing, asynchronous mediator dispatch, request-shape checks, identity generation and status-code mapping over collaborators outside this model.
- The definitions of the validation primitives (`ValidarTamanho`, `ValidarSeNaoVazio`, `ValidarSeNaoNulo`) are not part of this model. They are arbitrary predicates here, and no digit-count or magnitude reading of the length check is assumed.
- How a failed check is reported (domain notification or exception) is not modelled. A failure is an error outcome naming the failed rules. No claim is made about the state of the entity after a failure, because that depends on whether the unseen helper aborts the mutator.
- The order in which the rules are reported is not modelled. The error carries the set of failed rules. How many of them reach a caller depends on the helper.
- `Aplicar` stops at the first refusal. This is how the model composes calls. It does not state what the original object would hold after a refused call.
- C# null references are not modelled. `cliente` is always a value (the constructor dereferences `cliente.Id` before any null check), and `Email` is a non-null string. The non-null checks stay as arbitrary predicates on the customer and on its identity.
- The protected parameterless constructor used by the persistence layer is not modelled. Neither are the `Entidade` base class and its own identity, `Cliente`'s other fields and validation, or the error-message strings.
