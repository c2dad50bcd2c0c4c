/**
 * The message service `MensagemServiceImpl`: register, fetch, update,
 * delete and list messages over the repository.
 *
 * Each operation is first specified as a function from the table before the
 * call to the table after it and the caller-visible result; the class
 * `MensagemServiceImpl` then performs the same steps in place on its own
 * fields and is proved to agree with those functions.
 */
module Servico {
  import opened Modelo
  import opened Repositorio

  /** `MensagemNotFoundException`, the only failure the service raises. */
  datatype MensagemNotFoundException = MensagemNotFoundException(message: string)

  /** A call that either returns a value or throws `MensagemNotFoundException`. */
  datatype Result<+T> = Ok(value: T) | Err(error: MensagemNotFoundException)

  /** The table after a call, and what the call returned. */
  datatype Saida<+T> = Saida(tabela: Tabela, resultado: T)

  const NaoEncontrada: string := "Mensagem não encontrada"
  const IdIncorreto: string := "Mensagem atualizada não apresenta o ID correto"

  /**
   * `registrarMensagem`: the caller's record gets the fresh id `novoId`
   * (whatever id it carried is dropped) and is saved.
   */
  function Registrar(t: Tabela, mensagem: Mensagem, novoId: Uuid): (r: Saida<Mensagem>)
    requires novoId !in t.registros
    ensures r.resultado.id == Some(novoId)
    ensures r.resultado.usuario == mensagem.usuario && r.resultado.conteudo == mensagem.conteudo
    ensures r.resultado.dataCriacao == mensagem.dataCriacao && r.resultado.gostei == mensagem.gostei
    ensures r.tabela.registros == t.registros[novoId := r.resultado]
    ensures r.tabela.ordem == t.ordem + [novoId]
    ensures Valid(t) ==> Valid(r.tabela)
  {
    var comId := mensagem.(id := Some(novoId));
    Saida(Save(t, comId), comId)
  }

  /** `buscarMensagem`: the record stored under `id`, or the not-found failure. */
  function Buscar(t: Tabela, id: Uuid): (r: Result<Mensagem>)
    ensures r.Ok? <==> id in t.registros
    ensures r.Ok? ==> r.value == t.registros[id]
    ensures r.Err? ==> r.error.message == NaoEncontrada
  {
    match FindById(t, id)
    case Some(m) => Ok(m)
    case None => Err(MensagemNotFoundException(NaoEncontrada))
  }

  /**
   * `alterarMensagem`: fetch by `id`, reject a payload whose id is not the
   * fetched record's id, otherwise replace only the text and save.
   *
   * The code compares the FETCHED record's id with the payload's; in a
   * valid table that record's id is `id` itself, so the outcome is exactly
   * the one of comparing the lookup id with the payload's id (the third and
   * fourth postconditions are stated that way).
   */
  function Alterar(t: Tabela, id: Uuid, atualizada: Mensagem): (r: Saida<Result<Mensagem>>)
    requires Valid(t)
    ensures Valid(r.tabela)
    ensures id !in t.registros ==>
      r.tabela == t && r.resultado == Err(MensagemNotFoundException(NaoEncontrada))
    ensures id in t.registros && atualizada.id != Some(id) ==>
      r.tabela == t && r.resultado == Err(MensagemNotFoundException(IdIncorreto))
    ensures id in t.registros && atualizada.id == Some(id) ==>
      var original := t.registros[id];
      && r.resultado.Ok?
      && r.resultado.value.conteudo == atualizada.conteudo
      && r.resultado.value.id == original.id == Some(id)
      && r.resultado.value.usuario == original.usuario
      && r.resultado.value.dataCriacao == original.dataCriacao
      && r.resultado.value.gostei == original.gostei
      && r.tabela.registros == t.registros[id := r.resultado.value]
      && r.tabela.ordem == t.ordem
  {
    match Buscar(t, id)
    case Err(e) => Saida(t, Err(e))
    case Ok(mensagem) =>
      if mensagem.id != atualizada.id then
        Saida(t, Err(MensagemNotFoundException(IdIncorreto)))
      else
        var alterada := mensagem.(conteudo := atualizada.conteudo);
        Saida(Save(t, alterada), Ok(alterada))
  }

  /** `removerMensagem`: fetch by `id` (failing if absent), then delete it. */
  function Remover(t: Tabela, id: Uuid): (r: Saida<Result<bool>>)
    ensures id !in t.registros ==>
      r.tabela == t && r.resultado == Err(MensagemNotFoundException(NaoEncontrada))
    ensures id in t.registros ==>
      r.resultado == Ok(true) && r.tabela.registros == t.registros - {id}
    ensures Valid(t) ==>
      forall i | 0 <= i < |t.ordem| && t.ordem[i] == id :: r.tabela.ordem == t.ordem[..i] + t.ordem[i + 1..]
    ensures Valid(t) ==> Valid(r.tabela)
  {
    match Buscar(t, id)
    case Err(e) => Saida(t, Err(e))
    case Ok(_) => Saida(DeleteById(t, id), Ok(true))
  }

  /**
   * A freshly registered message can be fetched back unchanged, and
   * registering leaves what every other id fetches as it was.
   */
  lemma RegistrarEntaoBuscar(t: Tabela, mensagem: Mensagem, novoId: Uuid, outro: Uuid)
    requires novoId !in t.registros && outro != novoId
    ensures var r := Registrar(t, mensagem, novoId);
      Buscar(r.tabela, novoId) == Ok(r.resultado) && Buscar(r.tabela, outro) == Buscar(t, outro)
  {
  }

  /**
   * Registering a message made by the builder yields a stored record with a
   * creation time and no likes, and the record meets the column constraints
   * when the author and text are non-empty.
   */
  lemma RegistrarMensagemConstruida(t: Tabela, usuario: string, conteudo: string, agora: Timestamp,
                                    idDoChamador: Option<Uuid>, novoId: Uuid)
    requires novoId !in t.registros
    ensures var r := Registrar(t, Build(idDoChamador, Some(usuario), Some(conteudo), agora), novoId);
      && r.resultado.id == Some(novoId)
      && r.resultado.dataCriacao == Some(agora)
      && r.resultado.gostei == 0
      && (|usuario| > 0 && |conteudo| > 0 ==> Valida(r.tabela.registros[novoId]))
  {
  }

  /** After a successful update, fetching the id returns the updated record. */
  lemma AlterarEntaoBuscar(t: Tabela, id: Uuid, atualizada: Mensagem, outro: Uuid)
    requires Valid(t) && outro != id
    ensures var r := Alterar(t, id, atualizada);
      && (r.resultado.Ok? ==> Buscar(r.tabela, id) == r.resultado)
      && Buscar(r.tabela, outro) == Buscar(t, outro)
  {
  }

  /**
   * After a successful delete, fetching the id fails with the not-found
   * message, a second delete fails the same way, and every other id fetches
   * what it did before.
   */
  lemma RemoverEntaoBuscar(t: Tabela, id: Uuid, outro: Uuid)
    requires outro != id
    ensures var r := Remover(t, id);
      && Buscar(r.tabela, id) == Err(MensagemNotFoundException(NaoEncontrada))
      && Remover(r.tabela, id).resultado == Err(MensagemNotFoundException(NaoEncontrada))
      && Buscar(r.tabela, outro) == Buscar(t, outro)
  {
  }

  /**
   * An update that succeeds keeps the message valid exactly when the new
   * text is non-empty: the service itself never checks the text.
   */
  lemma AlterarPreservaValida(t: Tabela, id: Uuid, atualizada: Mensagem)
    requires Valid(t) && id in t.registros && Valida(t.registros[id]) && atualizada.id == Some(id)
    ensures var r := Alterar(t, id, atualizada);
      r.resultado.Ok? && (Valida(r.resultado.value) <==> NaoVazio(atualizada.conteudo))
  {
  }

  /**
   * The whole life of one message: register "Jose"/"hello", replace its
   * text with "ABC 123" through a payload that carries only the id and the
   * text, delete it, and fetch it again. The table ends exactly as it began,
   * listing order included.
   */
  lemma CicloDeVida(t: Tabela, novoId: Uuid, agora: Timestamp, depois: Timestamp)
    requires Valid(t) && novoId !in t.registros
    ensures
      var registrada := Registrar(t, Build(None, Some("Jose"), Some("hello"), agora), novoId);
      var alterada := Alterar(registrada.tabela, novoId, Build(Some(novoId), None, Some("ABC 123"), depois));
      var removida := Remover(alterada.tabela, novoId);
      && alterada.resultado == Ok(Mensagem(Some(novoId), Some("Jose"), Some("ABC 123"), Some(agora), 0))
      && removida.resultado == Ok(true)
      && Buscar(removida.tabela, novoId) == Err(MensagemNotFoundException(NaoEncontrada))
      && removida.tabela == t
  {
    var registrada := Registrar(t, Build(None, Some("Jose"), Some("hello"), agora), novoId);
    var alterada := Alterar(registrada.tabela, novoId, Build(Some(novoId), None, Some("ABC 123"), depois));
    var ordem := alterada.tabela.ordem;
    assert ordem[|t.ordem|] == novoId && ordem[..|t.ordem|] == t.ordem && ordem[|t.ordem| + 1..] == [];
    var final := alterada.resultado.value;
    SobrescreverChave(t.registros, novoId, registrada.resultado, final);
    RetirarChaveNova(t.registros, novoId, final);
  }

  /** Writing a key twice keeps only the second value. */
  lemma SobrescreverChave(m: map<Uuid, Mensagem>, k: Uuid, a: Mensagem, b: Mensagem)
    ensures m[k := a][k := b] == m[k := b]
  {
  }

  /** Adding a new key and removing it again gives back the map. */
  lemma RetirarChaveNova(m: map<Uuid, Mensagem>, k: Uuid, v: Mensagem)
    requires k !in m
    ensures m[k := v] - {k} == m
  {
  }

  /**
   * The service object. Its two fields are the repository's contents: the
   * records by id and their insertion order.
   */
  class MensagemServiceImpl {
    var registros: map<Uuid, Mensagem>
    var ordem: seq<Uuid>

    function Estado(): Tabela
      reads this
    {
      Tabela(registros, ordem)
    }

    ghost predicate Valid()
      reads this
    {
      Repositorio.Valid(Estado())
    }

    /** A service over a repository that already holds `inicial`. */
    constructor (inicial: Tabela)
      requires Repositorio.Valid(inicial)
      ensures Valid() && Estado() == inicial
    {
      registros := inicial.registros;
      ordem := inicial.ordem;
    }

    /** `repository.save`: insert or replace `m` under its id. */
    method Save(m: Mensagem) returns (salva: Mensagem)
      requires m.id.Some?
      modifies this
      ensures Estado() == Repositorio.Save(old(Estado()), m)
      ensures salva == m
    {
      var k := m.id.value;
      if k !in registros {
        ordem := ordem + [k];
      }
      registros := registros[k := m];
      salva := m;
    }

    /** `repository.deleteById`. */
    method DeleteById(id: Uuid)
      modifies this
      ensures Estado() == Repositorio.DeleteById(old(Estado()), id)
    {
      registros := registros - {id};
      ordem := Sem(ordem, id);
    }

    method RegistrarMensagem(mensagem: Mensagem, novoId: Uuid) returns (r: Mensagem)
      requires Valid() && novoId !in registros
      modifies this
      ensures Valid()
      ensures Saida(Estado(), r) == Registrar(old(Estado()), mensagem, novoId)
    {
      var comId := mensagem.(id := Some(novoId));
      r := Save(comId);
    }

    method BuscarMensagem(id: Uuid) returns (r: Result<Mensagem>)
      ensures r == Buscar(Estado(), id)
      ensures r.Ok? <==> id in registros
    {
      if id in registros {
        r := Ok(registros[id]);
      } else {
        r := Err(MensagemNotFoundException(NaoEncontrada));
      }
    }

    method AlterarMensagem(id: Uuid, atualizada: Mensagem) returns (r: Result<Mensagem>)
      requires Valid()
      modifies this
      ensures Valid()
      ensures Saida(Estado(), r) == Alterar(old(Estado()), id, atualizada)
    {
      var busca := BuscarMensagem(id);
      if busca.Err? {
        return Err(busca.error);
      }
      var mensagem := busca.value;
      if mensagem.id != atualizada.id {
        return Err(MensagemNotFoundException(IdIncorreto));
      }
      mensagem := mensagem.(conteudo := atualizada.conteudo);
      var salva := Save(mensagem);
      return Ok(salva);
    }

    method RemoverMensagem(id: Uuid) returns (r: Result<bool>)
      requires Valid()
      modifies this
      ensures Valid()
      ensures Saida(Estado(), r) == Remover(old(Estado()), id)
    {
      var busca := BuscarMensagem(id);
      if busca.Err? {
        return Err(busca.error);
      }
      DeleteById(id);
      return Ok(true);
    }

    /** `listarMensagens`: a read of the repository; nothing is modified. */
    method ListarMensagens(pageable: Pageable) returns (pagina: Page)
      requires Valid()
      requires pageable.PageRequest? ==> pageable.pageSize > 0
      ensures pagina == Repositorio.ListarMensagens(Estado(), pageable)
      ensures pagina.totalElements == |registros|
    {
      pagina := Repositorio.ListarMensagens(Estado(), pageable);
    }
  }
}
