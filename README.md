# Message service model (Dafny)

A Dafny model of the message-board service of a small Spring application: the
`Mensagem` entity and the service `MensagemServiceImpl` that registers, fetches,
updates, deletes and lists messages over a repository.

- `modelo.dfy` (module `Modelo`): the `Mensagem` record. Its Java reference fields
  (`id`, `usuario`, `conteudo`, `dataCriacao`) can be null and are `Option`s; `gostei` is
  a Java `int`. `Build` is the Lombok builder with its defaults: the creation time is
  the clock reading taken at construction, and `gostei` is 0. `Valida` is the
  `@NotEmpty` constraint on author and text.
- `repositorio.dfy` (module `Repositorio`): the repository the service calls. It is a
  table `Tabela` holding a map from primary key to record plus the order in which keys
  were inserted. `Valid` is the store invariant: the order lists each key exactly once,
  and every record is stored under its own id. The repository primitives the service
  uses are `FindById`, `Save` (insert or replace), `DeleteById`, and `ListarMensagens`
  (unpaged, or a `PageRequest` slice with its totals).
- `servico.dfy` (module `Servico`): the service. Each operation is a function from the
  table before the call to the table after it and the result (`Registrar`, `Buscar`,
  `Alterar`, `Remover`), with the error messages of `MensagemNotFoundException` carried
  exactly. The class `MensagemServiceImpl` keeps the repository's contents in two fields
  and runs the same steps in place: stamp the id and save, fetch, fetch-compare-set-save,
  fetch-delete. Each of its methods is proved to leave exactly the table and return
  exactly the result that the matching function describes.

The update check in the code (`MensagemServiceImpl.java:32`) compares the **fetched
record's** id with the payload id, not the path id with the payload id. The model
follows the code. `Servico.Alterar` proves that under the store invariant both
comparisons give the same outcome, because a fetched record's id is always its key.
So the two readings of the update rule cannot be told apart.

## Model

| member | source | states |
|---|---|---|
| Modelo.Build | src/main/java/br/com/fiap/api/model/Mensagem.java:16-36 | a built message has the given id, author and text, a creation time equal to the construction-time clock reading, and `gostei == 0` |
| Modelo.BuildValida | src/main/java/br/com/fiap/api/model/Mensagem.java:24-30 | a message built from non-empty author and text meets the `@NotEmpty` constraints; one with no author or with empty text does not |
| Repositorio.FindById | src/main/java/br/com/fiap/api/service/MensagemServiceImpl.java:26 | the lookup finds a record exactly when the key is stored, and then it is the stored record |
| Repositorio.Sem | src/main/java/br/com/fiap/api/service/MensagemServiceImpl.java:42 | removing a key from the insertion order removes exactly that key and shrinks the order by one, keeps it repetition-free, and leaves it alone when the key is absent |
| Repositorio.SemDistribui | src/main/java/br/com/fiap/api/service/MensagemServiceImpl.java:42 | removing a key from two joined orders is removing it from each, so the keys that stay keep their relative order |
| Repositorio.SemNaPosicao | src/main/java/br/com/fiap/api/service/MensagemServiceImpl.java:42 | in a repetition-free order, removing the key at position `i` leaves exactly the keys before it followed by the keys after it |
| Repositorio.Save | src/main/java/br/com/fiap/api/service/MensagemServiceImpl.java:21 | save maps the record's id to the record; a new id goes last in listing order and a replaced record keeps its place; the store invariant is preserved |
| Repositorio.DeleteById | src/main/java/br/com/fiap/api/service/MensagemServiceImpl.java:42 | delete removes exactly the given key from the map; the order loses exactly that key and the other keys keep their relative order; the store invariant is preserved |
| Repositorio.FindAll | src/main/java/br/com/fiap/api/service/MensagemServiceImpl.java:48 | the full listing has exactly as many entries as the store, contains every stored record, and lists only records stored under their own id, in insertion order |
| Repositorio.CardinalidadeSemRepeticao | src/main/java/br/com/fiap/api/service/MensagemServiceImpl.java:48 | a repetition-free key order has as many distinct keys as entries |
| Repositorio.TamanhoDaOrdem | src/main/java/br/com/fiap/api/service/MensagemServiceImpl.java:48 | in a valid store, the insertion order is exactly as long as the store is large |
| Repositorio.TodosListados | src/main/java/br/com/fiap/api/service/MensagemServiceImpl.java:48 | a listing that follows the insertion order of a valid store contains every stored record |
| Repositorio.ListarMensagens | src/main/java/br/com/fiap/api/service/MensagemServiceImpl.java:47-49 | the total element count equals the store size; unpaged, the content is the full listing on one page; paged, the content holds exactly the records from `pageNumber * pageSize` on, at most `pageSize` of them and none past the end, and the page count is the total over the size, rounded up |
| Repositorio.Pagina | src/main/java/br/com/fiap/api/service/MensagemServiceImpl.java:47-49 | page `n` at `size` records per page holds exactly `min(size, total - n * size)` records (none when `n * size` reaches the total), each the listing record at position `n * size` plus its index; the page count covers every record and wastes less than one page |
| Repositorio.PaginaContemRegistro | src/main/java/br/com/fiap/api/service/MensagemServiceImpl.java:47-49 | paging loses no record: position `p` of page `n` is the record at position `n * size + p` of the full listing, whenever that position exists |
| Servico.Registrar | src/main/java/br/com/fiap/api/service/MensagemServiceImpl.java:19-22 | the returned record carries the fresh id whatever id the caller supplied, and keeps the caller's author, text, creation time and likes; the store gains exactly that entry, listed last; the store invariant is preserved |
| Servico.Buscar | src/main/java/br/com/fiap/api/service/MensagemServiceImpl.java:25-27 | the fetch succeeds exactly when the id is stored and then returns the stored record; otherwise it fails with "Mensagem não encontrada" |
| Servico.Alterar | src/main/java/br/com/fiap/api/service/MensagemServiceImpl.java:30-37 | absent id: fails with "Mensagem não encontrada", store unchanged; payload id different from the lookup id (including no id): fails with "Mensagem atualizada não apresenta o ID correto", store unchanged; otherwise the result has the payload's text and the original's id, author, creation time and likes, and is stored under the same id with nothing else changed |
| Servico.Remover | src/main/java/br/com/fiap/api/service/MensagemServiceImpl.java:40-44 | absent id: fails with "Mensagem não encontrada", store unchanged; present id: returns `true`, only that key is removed, and the other keys keep their listing order; the store invariant is preserved |
| Servico.RegistrarEntaoBuscar | src/main/java/br/com/fiap/api/service/MensagemServiceImpl.java:19-27 | a registered message can be fetched back under its new id exactly as returned, and every other id fetches what it did before |
| Servico.RegistrarMensagemConstruida | src/main/java/br/com/fiap/api/model/Mensagem.java:32-36 | registering a builder-made message returns a record with the new id, the construction-time timestamp and `gostei == 0`, which meets the constraints when author and text are non-empty |
| Servico.AlterarEntaoBuscar | src/main/java/br/com/fiap/api/service/MensagemServiceImpl.java:30-37 | after a successful update, fetching the id returns the updated record, and every other id fetches what it did before |
| Servico.RemoverEntaoBuscar | src/main/java/br/com/fiap/api/service/MensagemServiceImpl.java:40-44 | after a delete, fetching that id and deleting it again both fail with "Mensagem não encontrada", and every other id fetches what it did before |
| Servico.AlterarPreservaValida | src/main/java/br/com/fiap/api/service/MensagemServiceImpl.java:35 | an update of a valid record succeeds and yields a valid record exactly when the payload's text is non-empty, because the service does not check the text |
| Servico.CicloDeVida | src/main/java/br/com/fiap/api/service/MensagemServiceImpl.java:19-44 | register "Jose"/"hello", update to "ABC 123" with a payload carrying only id and text, then delete: the update keeps id, author, timestamp and `gostei == 0`; the delete returns `true`; a later fetch fails with "Mensagem não encontrada"; the table, listing order included, is back to its start |
| Servico.MensagemServiceImpl.constructor | src/main/java/br/com/fiap/api/service/MensagemServiceImpl.java:12-16 | a service over a repository that already holds a valid table |
| Servico.MensagemServiceImpl.Save | src/main/java/br/com/fiap/api/service/MensagemServiceImpl.java:21 | the in-place save leaves exactly the table that `Repositorio.Save` describes and returns the saved record |
| Servico.MensagemServiceImpl.DeleteById | src/main/java/br/com/fiap/api/service/MensagemServiceImpl.java:42 | the in-place delete leaves exactly the table that `Repositorio.DeleteById` describes |
| Servico.MensagemServiceImpl.RegistrarMensagem | src/main/java/br/com/fiap/api/service/MensagemServiceImpl.java:19-22 | keeps the store invariant; the new table and the returned record are those of `Registrar` |
| Servico.MensagemServiceImpl.BuscarMensagem | src/main/java/br/com/fiap/api/service/MensagemServiceImpl.java:25-27 | changes nothing; succeeds exactly when the id is stored, with the result of `Buscar` |
| Servico.MensagemServiceImpl.AlterarMensagem | src/main/java/br/com/fiap/api/service/MensagemServiceImpl.java:30-37 | keeps the store invariant; the new table and the result are those of `Alterar` |
| Servico.MensagemServiceImpl.RemoverMensagem | src/main/java/br/com/fiap/api/service/MensagemServiceImpl.java:40-44 | keeps the store invariant; the new table and the result are those of `Remover` |
| Servico.MensagemServiceImpl.ListarMensagens | src/main/java/br/com/fiap/api/service/MensagemServiceImpl.java:47-49 | a read: changes nothing, reports the store size as total, and returns the page `Repositorio.ListarMensagens` describes |

## Left out

- The HTTP controller (`MensagemController.java`) is not modelled: routing, status codes, `UUID.fromString` parsing and the `page=0`, `size=10` request defaults.
- `UUID.randomUUID()` is not modelled. The new id is a parameter of registration.
- Servico.Registrar: requires the new id to be absent from the store. The code does not check this. A colliding random UUID would make `save` overwrite the existing record, and the model does not cover that case.
- `LocalDateTime.now()` is not modelled. The clock reading is a parameter of `Build`.
- Modelo.Build: models only the builder with its defaults. Explicit `.dataCriacao(...)` or `.gostei(...)` calls and the no-argument constructor are not modelled separately. Any `Mensagem` value can still be passed to the service, so payloads built those ways are covered.
- In-place mutation of the caller's object is not modelled. `registrarMensagem` calls `setId` on the argument, and `alterarMensagem` calls `setConteudo` on the managed entity. The model returns the changed record as a new value, so the caller's reference is not updated.
- Bean Validation and JPA enforcement of `@NotEmpty` and `nullable = false` at persist time are not modelled. The model shows that the service itself lets an empty or missing text through (`Servico.AlterarPreservaValida`).
- Servico.Alterar: requires the store invariant. Under it, a stored record's id is never null, so the `NullPointerException` that line 32 would throw on a null stored id cannot happen and is not modelled.
- Store-level failures are not modelled: database errors, and the exceptions `save` and `deleteById` may propagate.
- The repository's real query order is not modelled. The model lists in insertion order.
- Most of Spring's `Page` object is left out: page number, sort and the `long` offset arithmetic. Only content, total elements and total pages are kept.
- Repositorio.ListarMensagens: requires a positive page size, which `PageRequest.of` itself requires (it throws otherwise). That exception is not modelled.
- Concurrency between requests is not modelled. Each operation is a single atomic step on the table.
- 32-bit overflow of `gostei` is not modelled. No operation changes `gostei`, so it cannot arise.
