/**
 * The message store that the service delegates to (the Spring Data
 * repository `MensagemRepository`, whose implementation is not part of
 * this model). It is modelled as a table: a finite map from primary key to
 * record, plus the order in which the keys were first inserted, which is
 * the order a listing returns.
 */
module Repositorio {
  import opened Modelo

  datatype Tabela = Tabela(registros: map<Uuid, Mensagem>, ordem: seq<Uuid>)

  /** A request for one page (`PageRequest.of(page, size)`) or for everything (`Pageable.unpaged()`). */
  datatype Pageable = Unpaged | PageRequest(pageNumber: nat, pageSize: nat)

  /** A `Page<Mensagem>`: the slice of records plus the totals it reports. */
  datatype Page = Page(content: seq<Mensagem>, totalElements: nat, totalPages: nat)

  predicate SemRepeticao(o: seq<Uuid>)
  {
    forall i, j :: 0 <= i < j < |o| ==> o[i] != o[j]
  }

  /**
   * The store invariant: the insertion order lists every key exactly once,
   * and every record is stored under its own id (the `@Id` primary key).
   */
  predicate Valid(t: Tabela)
  {
    && SemRepeticao(t.ordem)
    && (forall k :: k in t.ordem ==> k in t.registros)
    && (forall k :: k in t.registros ==> k in t.ordem)
    && (forall k :: k in t.registros ==> t.registros[k].id == Some(k))
  }

  /** `findById`: the record stored under `id`, if any. */
  function FindById(t: Tabela, id: Uuid): (r: Option<Mensagem>)
    ensures r.Some? <==> id in t.registros
    ensures r.Some? ==> r.value == t.registros[id]
  {
    if id in t.registros then Some(t.registros[id]) else None
  }

  /** The order `o` with the key `k` taken out and everything else kept in place. */
  function Sem(o: seq<Uuid>, k: Uuid): (r: seq<Uuid>)
    ensures forall x :: x in r <==> x in o && x != k
    ensures SemRepeticao(o) ==> SemRepeticao(r)
    ensures k !in o ==> r == o
    ensures SemRepeticao(o) && k in o ==> |r| == |o| - 1
  {
    if o == [] then []
    else if o[0] == k then
      assert SemRepeticao(o) ==> k !in o[1..];
      Sem(o[1..], k)
    else
      var resto := Sem(o[1..], k);
      assert SemRepeticao(o) ==> o[0] !in o[1..];
      [o[0]] + resto
  }

  /**
   * `save`: insert-or-replace by primary key. A new key goes to the end of
   * the insertion order; a replaced record keeps its place.
   */
  function Save(t: Tabela, m: Mensagem): (r: Tabela)
    requires m.id.Some?
    ensures r.registros == t.registros[m.id.value := m]
    ensures m.id.value in t.registros ==> r.ordem == t.ordem
    ensures m.id.value !in t.registros ==> r.ordem == t.ordem + [m.id.value]
    ensures Valid(t) ==> Valid(r)
  {
    var k := m.id.value;
    Tabela(t.registros[k := m], if k in t.registros then t.ordem else t.ordem + [k])
  }

  /** Taking a key out of two joined orders takes it out of each. */
  lemma {:induction false} SemDistribui(a: seq<Uuid>, b: seq<Uuid>, k: Uuid)
    ensures Sem(a + b, k) == Sem(a, k) + Sem(b, k)
  {
    if a != [] {
      assert (a + b)[1..] == a[1..] + b;
      SemDistribui(a[1..], b, k);
    } else {
      assert a + b == b;
    }
  }

  /**
   * In a repetition-free order, taking out the key found at position `i`
   * leaves exactly the keys before it followed by the keys after it.
   */
  lemma SemNaPosicao(o: seq<Uuid>, k: Uuid)
    ensures SemRepeticao(o) ==>
      forall i | 0 <= i < |o| && o[i] == k :: Sem(o, k) == o[..i] + o[i + 1..]
  {
    if SemRepeticao(o) {
      forall i | 0 <= i < |o| && o[i] == k
        ensures Sem(o, k) == o[..i] + o[i + 1..]
      {
        var antes, depois := o[..i], o[i + 1..];
        assert o == antes + [k] + depois;
        assert k !in antes && k !in depois;
        SemDistribui(antes + [k], depois, k);
        SemDistribui(antes, [k], k);
      }
    }
  }

  /**
   * `deleteById`: the key and its record are gone; the other keys keep
   * their relative order.
   */
  function DeleteById(t: Tabela, id: Uuid): (r: Tabela)
    ensures r.registros == t.registros - {id}
    ensures forall k :: k in r.ordem <==> k in t.ordem && k != id
    ensures SemRepeticao(t.ordem) ==>
      forall i | 0 <= i < |t.ordem| && t.ordem[i] == id :: r.ordem == t.ordem[..i] + t.ordem[i + 1..]
    ensures Valid(t) ==> Valid(r)
  {
    SemNaPosicao(t.ordem, id);
    Tabela(t.registros - {id}, Sem(t.ordem, id))
  }

  /** A repetition-free sequence has as many distinct elements as it is long. */
  lemma {:induction false} CardinalidadeSemRepeticao(o: seq<Uuid>)
    requires SemRepeticao(o)
    ensures |set x | x in o| == |o|
  {
    if o != [] {
      var resto := o[1..];
      assert SemRepeticao(resto);
      CardinalidadeSemRepeticao(resto);
      assert o[0] !in resto;
      assert (set x | x in o) == {o[0]} + (set x | x in resto);
    }
  }

  /** In a valid table the insertion order is exactly as long as the table is large. */
  lemma TamanhoDaOrdem(t: Tabela)
    requires Valid(t)
    ensures |t.ordem| == |t.registros|
  {
    CardinalidadeSemRepeticao(t.ordem);
    assert (set x | x in t.ordem) == t.registros.Keys;
  }

  /**
   * Every stored record, in insertion order: as many entries as the store
   * has records, every stored record among them, and each entry the record
   * stored under its own id.
   */
  function FindAll(t: Tabela): (r: seq<Mensagem>)
    requires Valid(t)
    ensures |r| == |t.registros| == |t.ordem|
    ensures forall i :: 0 <= i < |r| ==> r[i] == t.registros[t.ordem[i]]
    ensures forall k :: k in t.registros ==> t.registros[k] in r
    ensures forall i :: 0 <= i < |r| ==>
      r[i].id.Some? && r[i].id.value in t.registros && t.registros[r[i].id.value] == r[i]
  {
    TamanhoDaOrdem(t);
    var r := seq(|t.ordem|, i requires 0 <= i < |t.ordem| => t.registros[t.ordem[i]]);
    TodosListados(t, r);
    r
  }

  /** A listing that follows the insertion order lists every stored record. */
  lemma TodosListados(t: Tabela, r: seq<Mensagem>)
    requires Valid(t) && |r| == |t.ordem|
    requires forall i :: 0 <= i < |r| ==> r[i] == t.registros[t.ordem[i]]
    ensures forall k :: k in t.registros ==> t.registros[k] in r
  {
    forall k | k in t.registros
      ensures t.registros[k] in r
    {
      var i :| 0 <= i < |t.ordem| && t.ordem[i] == k;
      assert r[i] == t.registros[k];
    }
  }

  function Min(a: nat, b: nat): nat
  {
    if a <= b then a else b
  }

  /**
   * `listarMensagens(pageable)`. Unpaged, the page is the whole listing and
   * counts as one page; paged, it is the slice `Pagina` cuts from the listing.
   */
  function ListarMensagens(t: Tabela, p: Pageable): (r: Page)
    requires Valid(t)
    requires p.PageRequest? ==> p.pageSize > 0
    ensures r.totalElements == |t.registros|
    ensures p.Unpaged? ==> r.content == FindAll(t) && r.totalPages == 1
    ensures p.PageRequest? ==> |r.content| <= p.pageSize
    ensures p.PageRequest? ==>
      |r.content| == if p.pageNumber * p.pageSize >= |t.registros| then 0
                     else Min(p.pageSize, |t.registros| - p.pageNumber * p.pageSize)
    ensures p.PageRequest? ==> r.totalPages * p.pageSize >= r.totalElements
    ensures p.PageRequest? && r.totalPages > 0 ==> (r.totalPages - 1) * p.pageSize < r.totalElements
  {
    var todas := FindAll(t);
    match p
    case Unpaged => Page(todas, |todas|, 1)
    case PageRequest(numero, tamanho) => Pagina(todas, numero, tamanho)
  }

  /**
   * Page `numero` of `todas` at `tamanho` records per page: the records
   * starting at `numero * tamanho` (fewer at the end, none past it), with the
   * page count rounded up.
   */
  function Pagina(todas: seq<Mensagem>, numero: nat, tamanho: nat): (r: Page)
    requires tamanho > 0
    ensures r.totalElements == |todas|
    ensures |r.content| <= tamanho
    ensures |r.content| == if numero * tamanho >= |todas| then 0
                           else Min(tamanho, |todas| - numero * tamanho)
    ensures forall i :: 0 <= i < |r.content| ==> r.content[i] == todas[numero * tamanho + i]
    ensures r.totalPages * tamanho >= |todas|
    ensures r.totalPages > 0 ==> (r.totalPages - 1) * tamanho < |todas|
  {
    var deslocamento := numero * tamanho;
    TamanhoDaFatia(|todas|, deslocamento, tamanho);
    TotalDePaginas(|todas|, tamanho);
    Page(todas[Min(deslocamento, |todas|)..Min(deslocamento + tamanho, |todas|)],
         |todas|, (|todas| + tamanho - 1) / tamanho)
  }

  /** The slice of at most `tamanho` elements starting at `inicio` of `n` elements. */
  lemma TamanhoDaFatia(n: nat, inicio: nat, tamanho: nat)
    ensures Min(inicio, n) <= Min(inicio + tamanho, n)
    ensures Min(inicio + tamanho, n) - Min(inicio, n) ==
      if inicio >= n then 0 else Min(tamanho, n - inicio)
  {
  }

  /** Rounding the page count up covers every element and wastes less than one page. */
  lemma TotalDePaginas(n: nat, tamanho: nat)
    requires tamanho > 0
    ensures ((n + tamanho - 1) / tamanho) * tamanho >= n
    ensures (n + tamanho - 1) / tamanho > 0 ==> ((n + tamanho - 1) / tamanho - 1) * tamanho < n
  {
  }

  /**
   * Paging loses nothing: position `posicao` of page `numero` holds the
   * record at position `numero * pageSize + posicao` of the full listing,
   * whenever that position exists.
   */
  lemma PaginaContemRegistro(t: Tabela, tamanho: nat, numero: nat, posicao: nat)
    requires Valid(t) && posicao < tamanho && numero * tamanho + posicao < |t.registros|
    ensures var pagina := ListarMensagens(t, PageRequest(numero, tamanho)).content;
      posicao < |pagina| && pagina[posicao] == FindAll(t)[numero * tamanho + posicao]
  {
  }
}
