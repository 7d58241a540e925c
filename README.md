# filmes-api: the filter selector and the partial update, in Dafny

This project models the decision-bearing core of a small movie catalogue
service. The service exposes CRUD endpoints over `Filme` records backed by a
relational store. Three parts carry logic, and they are what is modelled:

- **`filtrar`** takes three optional criteria (free text, stars, year). It
  computes three presence flags and walks a first-match-wins decision list
  that selects one of seven repository queries. Text is present when it is
  non-null and non-empty after `trim()`. Stars and year are present when they
  are non-null.
- **The seven repository queries** are JPQL `where` clauses. The text condition
  is an OR over six upper-cased fields compared with `LIKE` against
  `"%" + texto.toUpperCase() + "%"`. Stars and year are compared with exact
  equality. The combined queries are conjunctions of these conditions.
- **`inserir` and `atualizar`**. `inserir` refuses a client-supplied id and
  otherwise saves the record. `atualizar` first reports a missing target and
  then a supplied id. Otherwise it overwrites each of the nine descriptive
  fields only when the patch value is non-null, forces the id to the path id,
  and saves.

Modules, one per concern:

| file | module | models |
|---|---|---|
| `optional.dfy` | `Optional` | Java `null` as `None` |
| `java_string.dfy` | `JavaString` | `String.trim()` and an ASCII `toUpperCase()` |
| `sql_like.dfy` | `SqlLike` | SQL `LIKE` without `ESCAPE`, and the `%t%` substring lemma |
| `filme.dfy` | `Filmes` | the `Filme` record, its getters by field, and the mutable `FilmeObj` view |
| `filme_repository.dfy` | `FilmeRepository` | the store (`map<Int32, Filme>`), the seven queries, their `where` clauses |
| `filme_controller.dfy` | `FilmeController` | `filtrar`, `inserir`, the merge, and `atualizar` |
| `exemplos.dfy` | `Exemplos` | worked scenarios on concrete records |

Design of the model:

- **Queries.** `FilmeRepository.Query` has one constructor per repository
  method. Each constructor carries the method's bound parameters.
  `Selecionar` is the decision list. `Run` evaluates a query over the store.
- **Results.** A query's result is a *set* of stored records, because no query
  has an `order by`.
- **The all-absent call.** It reaches `filtrarAno` with a null year. The model
  does *not* interpret the store's answer to `f.ano = NULL`, so `Filtrar`
  returns `None` for that one call.
- **The merge.** It exists twice. `Merge` is a pure function. `AplicarPatch`
  is the in-place update of a `FilmeObj`, mirroring the nine setters and
  `setId`. `AplicarPatch` is proved equal to `Merge`. `Atualizar` is an
  imperative method built from `FindById`, `AplicarPatch` and `Save`.
- **The store.** `Save` writes the record at its id's key, and `FindById` is a
  map lookup. The key generated on insert is a parameter of `Inserir`, and the
  store promises it is not already in use.

## Model

| member | source | states |
|---|---|---|
| `JavaString.Trim` | src/main/java/com/acme/filmes/FilmeController.java:104 | `trim()` yields the slice of the text left after removing a prefix and a suffix made only of characters at or below U+0020, and that slice neither starts nor ends with such a character |
| `JavaString.TrimEmptyIffBlank` | src/main/java/com/acme/filmes/FilmeController.java:104 | `texto.trim().equals("")` holds exactly when every character is at or below U+0020 |
| `JavaString.TrimShortens` | src/main/java/com/acme/filmes/FilmeController.java:104 | trimming either leaves the text as it is or makes it strictly shorter |
| `JavaString.ToUpperCase` | src/main/java/com/acme/filmes/FilmeController.java:113 | `toUpperCase()` keeps the length, turns each ASCII lower-case letter `a`..`z` into its own upper-case letter `A`..`Z`, and leaves every other character as it was |
| `JavaString.ToUpperCaseIdempotent` | src/main/java/com/acme/filmes/FilmeRepository.java:42 | upper-casing an already upper-cased string changes nothing |
| `SqlLike.Like` | src/main/java/com/acme/filmes/FilmeRepository.java:42 | `s LIKE p` with a pattern holding neither `%` nor `_` holds exactly when `s` is the pattern itself |
| `SqlLike.LikePercent` | src/main/java/com/acme/filmes/FilmeRepository.java:42 | the pattern `%` matches every string |
| `SqlLike.LikePrefix` | src/main/java/com/acme/filmes/FilmeRepository.java:42 | a wildcard-free `t` followed by `%` matches exactly the strings that start with `t` |
| `SqlLike.LikeSkip` | src/main/java/com/acme/filmes/FilmeRepository.java:42 | a leading `%` lets the rest of the pattern match any suffix |
| `SqlLike.LikeContains` | src/main/java/com/acme/filmes/FilmeRepository.java:42 | for wildcard-free `t`, `s LIKE '%t%'` holds exactly when `t` occurs in `s` |
| `Filmes.FilmeObj.constructor` | src/main/java/com/acme/filmes/Filme.java:18-32 | the mutable entity object holds exactly the record's id and nine fields, so the `Filme` value and the object carry the same data |
| `Filmes.Extensionality` | src/main/java/com/acme/filmes/Filme.java:16-32 | two records are equal exactly when the id and all nine getters agree (Lombok `@Data` equality) |
| `FilmeRepository.Save` | src/main/java/com/acme/filmes/FilmeController.java:86 | `save` of an identified record stores it at its id, adds no other key, keeps every other entry, and keeps every stored record at its own id |
| `FilmeRepository.LikeCampo` | src/main/java/com/acme/filmes/FilmeRepository.java:42 | one `upper(field) like :texto`: a null field never matches, and the pattern `%` accepts every non-null field |
| `FilmeRepository.MatchTexto` | src/main/java/com/acme/filmes/FilmeRepository.java:42 | the OR of the six `like` tests holds only for a record with at least one non-null searched field (the full OR is stated by `MatchTextoCampos`) |
| `FilmeRepository.Where` | src/main/java/com/acme/filmes/FilmeRepository.java:22-53 | for each of the seven queries (the constructors of `Query`), its `where` clause holds exactly when the record meets every criterion the query is bound to, and no other |
| `FilmeRepository.ArgsInjective` | src/main/java/com/acme/filmes/FilmeRepository.java:22-53 | the seven queries are told apart by the criteria they are bound to |
| `FilmeRepository.Run` | src/main/java/com/acme/filmes/FilmeRepository.java:22-53 | every query returns only stored records, and exactly those that meet each criterion it is bound to: text by `LIKE` on six fields, stars and year by equality |
| `FilmeRepository.MatchTextoCampos` | src/main/java/com/acme/filmes/FilmeRepository.java:42 | the text condition holds exactly when some searched field (every text field but `posterUrl`) matches, upper-cased, and a null field never matches |
| `FilmeRepository.PosterUrlNaoBuscado` | src/main/java/com/acme/filmes/FilmeRepository.java:42 | changing `posterUrl` never changes whether a record matches the text |
| `FilmeRepository.ToUpperCaseLiteral` | src/main/java/com/acme/filmes/FilmeController.java:133 | upper-casing neither creates nor removes a `%` or `_` |
| `FilmeRepository.MatchTextoContains` | src/main/java/com/acme/filmes/FilmeRepository.java:42 | with pattern `%T%` and wildcard-free `T`, a record matches exactly when `T` occurs in one of the six upper-cased non-null searched fields |
| `FilmeRepository.Conjuncao` | src/main/java/com/acme/filmes/FilmeRepository.java:22-38 | each combined query returns the intersection of the single-criterion queries it combines |
| `FilmeRepository.Estreitamento` | src/main/java/com/acme/filmes/FilmeRepository.java:22-53 | adding a criterion only narrows the result, for example text-and-stars is within text, and within stars |
| `FilmeController.TemTexto` | src/main/java/com/acme/filmes/FilmeController.java:104 | `temTexto`, computed as non-null and not empty after `trim()`, holds exactly when the text is non-null and holds a character above U+0020 |
| `FilmeController.Padrao` | src/main/java/com/acme/filmes/FilmeController.java:113-133 | for text free of `%` and `_`, the bound pattern `"%"+texto.toUpperCase()+"%"` matches exactly the strings that contain the upper-cased text |
| `FilmeController.PadraoNaoAparado` | src/main/java/com/acme/filmes/FilmeController.java:104-133 | the pattern is built from the untrimmed text: when trimming would change the text, the pattern differs from the trimmed text's pattern |
| `FilmeController.Selecionar` | src/main/java/com/acme/filmes/FilmeController.java:104-142 | the selected query is bound to `%UPPER(texto)%` exactly when text is present, to the stars exactly when given, and to the year exactly when given |
| `FilmeController.SelecionarUnico` | src/main/java/com/acme/filmes/FilmeController.java:110-142 | with `ArgsInjective`: each presence combination selects one query, the only one bound to exactly the present criteria, so T∧S∧Y wins over T∧S, T∧S over T, and so on |
| `FilmeController.SelecionarSemCriterios` | src/main/java/com/acme/filmes/FilmeController.java:104-142 | with no stars, no year and null or blank text, control falls through to `filtrarAno` with a null year, a call this model leaves uninterpreted |
| `FilmeController.TextoEmBranco` | src/main/java/com/acme/filmes/FilmeController.java:104-142 | blank text selects the same query as null text |
| `FilmeController.Filtrar` | src/main/java/com/acme/filmes/FilmeController.java:100-143 | `filtrar` returns the stored records meeting every present criterion. The result is uninterpreted exactly when no criterion is present |
| `FilmeController.FiltrarSubstring` | src/main/java/com/acme/filmes/FilmeController.java:100-143 | for wildcard-free present text, a record is returned exactly when the upper-cased text occurs in one of the six upper-cased searched fields and the record meets the other present criteria |
| `FilmeController.Inserir` | src/main/java/com/acme/filmes/FilmeController.java:49-55 | an id in the body fails with `IdInformado` and nothing is saved. Otherwise the fields are saved as given under a fresh generated key, one key is added, no other entry changes, and the store invariant is kept |
| `FilmeController.Merge` | src/main/java/com/acme/filmes/FilmeController.java:76-85 | each of the nine descriptive fields is the patch value when non-null and the existing value otherwise. The id is the path id |
| `FilmeController.MergeUnico` | src/main/java/com/acme/filmes/FilmeController.java:76-85 | the field-wise rule and the forced id determine the merged record completely |
| `FilmeController.MergeOmissao` | src/main/java/com/acme/filmes/FilmeController.java:76-85 | a patch with every field null yields the existing record with only the id set |
| `FilmeController.MergeIdempotente` | src/main/java/com/acme/filmes/FilmeController.java:76-85 | applying the same patch twice equals applying it once |
| `FilmeController.AplicarPatch` | src/main/java/com/acme/filmes/FilmeController.java:76-85 | the in-place setters leave the object holding exactly `Merge` of its old value |
| `FilmeController.Atualizar` | src/main/java/com/acme/filmes/FilmeController.java:62-87 | not-found is reported before a supplied id (also when both apply), neither error saves anything, success saves the merged record at the path id only. Keys and the store invariant are kept |
| `Exemplos.FiltroEstrelasAno` | src/main/java/com/acme/filmes/FilmeController.java:125-128 | with Matrix (5 stars, 1999) and Amelie (4, 2001) stored, stars 5 and year 1999 return only Matrix |
| `Exemplos.FiltroTexto` | src/main/java/com/acme/filmes/FilmeController.java:130-133 | on the same store, the text "amelie" returns only Amelie |
| `Exemplos.FiltroSemCriterios` | src/main/java/com/acme/filmes/FilmeController.java:140-142 | with nothing given, the call is `filtrarAno(null)` |
| `Exemplos.CasaPeloTitulo` | src/main/java/com/acme/filmes/FilmeRepository.java:42 | wildcard-free text found in the upper-cased title is enough for the text condition |
| `Exemplos.FiltroGodfather` | src/main/java/com/acme/filmes/FilmeRepository.java:42 | "godfather" matches a record titled "The Godfather" |
| `Exemplos.AtualizacaoTitulo` | src/main/java/com/acme/filmes/FilmeController.java:76-85 | patching title "A" with "B" changes only the title and the id |
| `Exemplos.InsercaoComId` | src/main/java/com/acme/filmes/FilmeController.java:53 | creating `{id: 5, titulo: "X"}` fails with `IdInformado` |

## Left out

- HTTP routing and request binding are not modelled, including the binding of `defaultValue = ""` to a null `Integer`. The three criteria arrive as `Option` values.
- `todos`, `get` and `excluir` are not modelled. Each is a one-line delegation to `findAll`, `findById` or `deleteById`. In particular the model does not say whether deleting an absent id is a no-op.
- The persistence library is not modelled. `findById` is a map lookup. `save` is assumed to write exactly one key.
- Id generation (`@GeneratedValue`) is not modelled. The generated key is the parameter `novoId` of `Inserir`, and its `requires novoId !in store` is the store's promise of a fresh key.
- JPA's persistence context is not modelled. `Atualizar` copies the found record into a fresh `FilmeObj`. It does not model that the managed entity is shared with other readers before `save`.
- FilmeRepository.Run: the store's answer to `f.ano = NULL` is not modelled. It is the fallthrough call `filtrarAno(null)`, which the source's authors did not guard. `Run` requires a query other than `FiltrarAno(None)`, and `Filtrar` answers `None` for that one call.
- JavaString.ToUpperCase: only ASCII letters are upper-cased. Java's `toUpperCase()` and SQL `upper()` are Unicode- and locale-sensitive, and a database collation may also fold case.
- SqlLike.Like: the escape character of `LIKE` is not modelled. The query sets no `ESCAPE` clause, so the escape character depends on the database; PostgreSQL, MySQL and H2 treat `\` as one by default, and there the model's reading of text containing `\` differs from the database's.
- SqlLike.LikeContains: the substring reading holds only for text free of `%` and `_`, which is its precondition. `Like` itself does treat `%` and `_` in user text as wildcards, as the source does.
- FilmeController.Filtrar: the result is a set of records, so the store's row order is not modelled. No query has an `order by`.
- FilmeController.AplicarPatch: each guarded setter `if (p != null) f.setX(p)` is written as one assignment through the apply-if-present combinator. A null patch value writes the current value back, which leaves the object in the same state.
- The exception message text is not modelled. Both "do not send the id" messages are the constructor `IdInformado`, and the not-found message is `NaoEncontrado(id)`.
- Concurrency is not modelled. In particular it leaves out concurrent `atualizar` calls, where the last write wins between `findById` and `save`.
- `estrelas` and `ano` are `Int32` values with no range check, as in the source. No arithmetic is done on them, so wrap-around never arises.

## Notes on the source

- The all-absent call reaches `filtrarAno(null)`; the code has no guard for it. The model follows the code, states which inputs reach the call (`SelecionarSemCriterios`) and leaves the store's answer open.
- No query has an `order by`, so results are modelled as sets.
