/**
 * The `Mensagem` entity of the message board: one posted note with its
 * author (`usuario`), its text (`conteudo`), its creation time and its
 * like counter (`gostei`).
 *
 * Java references may be null, so every reference-typed field is an
 * `Option`; `gostei` is a primitive Java `int` and is never null.
 */
module Modelo {

  datatype Option<+T> = None | Some(value: T)

  /** A `java.util.UUID`: 128 bits, compared by value. */
  newtype Uuid = x: int | 0 <= x < 0x1_0000_0000_0000_0000_0000_0000_0000_0000

  /** A `java.time.LocalDateTime`, as a point on an abstract clock. */
  type Timestamp = int

  /** A Java `int`. */
  newtype Int32 = x: int | -0x8000_0000 <= x < 0x8000_0000

  /**
   * The entity. Equality is structural over all five fields, as the
   * generated `equals` of the Java record is.
   */
  datatype Mensagem = Mensagem(
    id: Option<Uuid>,
    usuario: Option<string>,
    conteudo: Option<string>,
    dataCriacao: Option<Timestamp>,
    gostei: Int32)

  /** The `@NotEmpty` constraint: present and at least one character long. */
  predicate NaoVazio(s: Option<string>)
  {
    s.Some? && |s.value| > 0
  }

  /**
   * The declared column constraints on a message. Nothing in the service
   * checks them: they are a property a record may or may not have.
   */
  predicate Valida(m: Mensagem)
  {
    NaoVazio(m.usuario) && NaoVazio(m.conteudo)
  }

  /**
   * `Mensagem.builder()...build()` with the builder defaults left in place:
   * the creation time is the clock reading `agora` taken at construction,
   * and the like counter starts at zero.
   */
  function Build(id: Option<Uuid>, usuario: Option<string>, conteudo: Option<string>,
                 agora: Timestamp): (m: Mensagem)
    ensures m.id == id && m.usuario == usuario && m.conteudo == conteudo
    ensures m.dataCriacao.Some? && m.dataCriacao.value == agora
    ensures m.gostei == 0
  {
    Mensagem(id, usuario, conteudo, Some(agora), 0)
  }

  /** A message built from a non-empty author and text meets the constraints. */
  lemma BuildValida(id: Option<Uuid>, usuario: string, conteudo: string, agora: Timestamp)
    requires |usuario| > 0 && |conteudo| > 0
    ensures Valida(Build(id, Some(usuario), Some(conteudo), agora))
    ensures !Valida(Build(id, None, Some(conteudo), agora))
    ensures !Valida(Build(id, Some(usuario), Some(""), agora))
  {
  }
}
