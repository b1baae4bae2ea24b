/**
 * The `movimentacoes` table and `salvar_movimentacao`: an upsert on the six-field natural key
 * that ignores duplicates, and the three-way message it shows afterwards.
 */
module Ledger {
  import opened Base
  import Aggregates

  /** One line of an itemised material purchase, as stored in an entry's `Itens` list. */
  datatype Item = Item(name: string, subcategoria: Option<string>, quantidade: real, valor: real)

  /** The conflict key `obra_id,Data,Detalhes,Valor,Categoria,Descrição`. */
  datatype EntryKey = EntryKey(obraId: int, data: Date, detalhes: Option<string>, valor: real, categoria: string, descricao: string)

  /** A row of `movimentacoes`. `detalhes` is the bank text (None for manual entries); `itens` is absent unless itemised. */
  datatype Entry = Entry(obraId: int, data: Date, detalhes: Option<string>, categoria: string,
                         valor: real, descricao: string, itens: Option<seq<Item>>)
  {
    function Key(): EntryKey
    {
      EntryKey(obraId, data, detalhes, valor, categoria, descricao)
    }
  }

  /** `SUBCATEGORIAS_MATERIAIS`: the choices offered for an item's Subcategoria. */
  const SubcategoriasMateriais: seq<string> := ["Geral", "Elétrica", "Hidráulica", "Pintura"]

  /** What the item grids let the user enter: a listed subcategory or none, quantity at least 0.1, a value not below 0. */
  predicate ItemAllowed(it: Item)
  {
    (it.subcategoria.None? || it.subcategoria.value in SubcategoriasMateriais) && it.quantidade >= 0.1 && it.valor >= 0.0
  }

  /** The sum of the item values of a purchase. */
  function ItemsTotal(items: seq<Item>): real
  {
    Aggregates.SumOf(items, (it: Item) => it.valor)
  }

  /** An itemised entry is consistent when its items add up exactly to its declared value. */
  predicate ItemsMatchTotal(e: Entry)
  {
    e.itens.Some? ==> ItemsTotal(e.itens.value) == e.valor
  }

  /** The stored table, indexed by conflict key. */
  type Table = map<EntryKey, Entry>

  /** Every row is filed under its own key. */
  predicate WellKeyed(t: Table)
  {
    forall k | k in t :: t[k].Key() == k
  }

  /** Insert-if-absent: a row whose key is already present is skipped, never overwritten. */
  function InsertOne(t: Table, e: Entry): Table
  {
    if e.Key() in t then t else t[e.Key() := e]
  }

  /** The upsert of a batch, row after row in batch order. */
  function InsertAll(t: Table, batch: seq<Entry>): Table
  {
    if batch == [] then t else InsertOne(InsertAll(t, batch[..|batch| - 1]), batch[|batch| - 1])
  }

  /** `len(response.data)`: how many rows of the batch the upsert actually wrote. */
  function CountNew(t: Table, batch: seq<Entry>): nat
  {
    if batch == [] then 0
    else
      var init := batch[..|batch| - 1];
      CountNew(t, init) + (if batch[|batch| - 1].Key() in InsertAll(t, init) then 0 else 1)
  }

  /** The keys a batch carries. */
  function BatchKeys(batch: seq<Entry>): set<EntryKey>
  {
    set i | 0 <= i < |batch| :: batch[i].Key()
  }

  /** The message `salvar_movimentacao` shows for `count` rows written out of `submitted`. */
  datatype Feedback = NothingNew | SomeIgnored(inserted: nat, ignored: nat) | AllSaved

  function FeedbackFor(count: nat, submitted: nat): Feedback
  {
    if count == 0 then NothingNew
    else if count < submitted then SomeIgnored(count, submitted - count)
    else AllSaved
  }

  /** The three messages split the possible counts: none new, some ignored (with both numbers right), all new. */
  lemma FeedbackCases(count: nat, submitted: nat)
    requires count <= submitted
    ensures FeedbackFor(count, submitted) == NothingNew <==> count == 0
    ensures FeedbackFor(count, submitted) == AllSaved <==> 0 < count == submitted
    ensures FeedbackFor(count, submitted).SomeIgnored? ==>
              var f := FeedbackFor(count, submitted);
              f.inserted == count && f.inserted > 0 && f.ignored > 0 && f.inserted + f.ignored == submitted
  {
  }

  /** The upsert never changes or removes a row that was already stored. */
  lemma {:induction false} InsertAllKeeps(t: Table, batch: seq<Entry>, k: EntryKey)
    requires k in t
    ensures k in InsertAll(t, batch) && InsertAll(t, batch)[k] == t[k]
  {
    if batch != [] {
      InsertAllKeeps(t, batch[..|batch| - 1], k);
    }
  }

  /** After the upsert the table holds exactly the old keys and the batch's keys, each row under its own key. */
  lemma {:induction false} InsertAllKeys(t: Table, batch: seq<Entry>)
    requires WellKeyed(t)
    ensures InsertAll(t, batch).Keys == t.Keys + BatchKeys(batch)
    ensures WellKeyed(InsertAll(t, batch))
  {
    if batch != [] {
      var init := batch[..|batch| - 1];
      InsertAllKeys(t, init);
      assert BatchKeys(batch) == BatchKeys(init) + {batch[|batch| - 1].Key()} by {
        forall k | k in BatchKeys(batch) ensures k in BatchKeys(init) + {batch[|batch| - 1].Key()} {
          var i :| 0 <= i < |batch| && batch[i].Key() == k;
          if i < |init| {
            assert init[i] == batch[i];
          }
        }
        forall k | k in BatchKeys(init) ensures k in BatchKeys(batch) {
          var i :| 0 <= i < |init| && init[i].Key() == k;
          assert batch[i] == init[i];
        }
      }
    }
  }

  /** The table grows by exactly the number of rows reported as written, which is at most the batch size. */
  lemma {:induction false} CountNewSize(t: Table, batch: seq<Entry>)
    ensures |InsertAll(t, batch)| == |t| + CountNew(t, batch)
    ensures CountNew(t, batch) <= |batch|
  {
    if batch != [] {
      var init := batch[..|batch| - 1];
      var e := batch[|batch| - 1];
      CountNewSize(t, init);
      var m := InsertAll(t, init);
      if e.Key() !in m {
        assert m[e.Key() := e].Keys == m.Keys + {e.Key()};
      }
    }
  }

  /** Nothing is written exactly when every key of the batch was already stored. */
  lemma {:induction false} NothingNewIffAllStored(t: Table, batch: seq<Entry>)
    requires WellKeyed(t)
    ensures CountNew(t, batch) == 0 <==> BatchKeys(batch) <= t.Keys
  {
    CountNewSize(t, batch);
    InsertAllKeys(t, batch);
    var after := InsertAll(t, batch);
    if CountNew(t, batch) == 0 {
      assert |after.Keys| == |t.Keys|;
      assert t.Keys <= after.Keys;
      SubsetSameSize(t.Keys, after.Keys);
    }
    if BatchKeys(batch) <= t.Keys {
      AllStoredWritesNothing(t, batch);
    }
  }

  lemma {:induction false} AllStoredWritesNothing(t: Table, batch: seq<Entry>)
    requires BatchKeys(batch) <= t.Keys
    ensures CountNew(t, batch) == 0
  {
    if batch != [] {
      var init := batch[..|batch| - 1];
      assert BatchKeys(init) <= BatchKeys(batch) by {
        forall k | k in BatchKeys(init) ensures k in BatchKeys(batch) {
          var i :| 0 <= i < |init| && init[i].Key() == k;
          assert batch[i] == init[i];
        }
      }
      AllStoredWritesNothing(t, init);
      var e := batch[|batch| - 1];
      assert e.Key() in BatchKeys(batch);
      InsertAllKeeps(t, init, e.Key());
    }
  }

  lemma SubsetSameSize<K>(a: set<K>, b: set<K>)
    requires a <= b && |a| == |b|
    ensures a == b
  {
    if a != b {
      assert exists y :: y in b && y !in a;
      var x :| x in b && x !in a;
      assert a <= b - {x};
      assert |b - {x}| == |b| - 1;
      SubsetCard(a, b - {x});
      assert false;
    }
  }

  lemma SubsetCard<K>(a: set<K>, b: set<K>)
    requires a <= b
    ensures |a| <= |b|
  {
    assert b == a + (b - a);
  }

  /** Submitting the same batch twice: the second upsert writes nothing and leaves the table as it was. */
  lemma UpsertIdempotent(t: Table, batch: seq<Entry>)
    requires WellKeyed(t)
    ensures InsertAll(InsertAll(t, batch), batch) == InsertAll(t, batch)
    ensures CountNew(InsertAll(t, batch), batch) == 0
  {
    var once := InsertAll(t, batch);
    InsertAllKeys(t, batch);
    InsertAllKeys(once, batch);
    NothingNewIffAllStored(once, batch);
    CountNewSize(once, batch);
    var twice := InsertAll(once, batch);
    assert twice.Keys == once.Keys;
    forall k | k in once ensures twice[k] == once[k] {
      InsertAllKeeps(once, batch, k);
    }
  }
}
