/**
 * The value conversions of ConfigManager: get() turns the stored text of a setting into a
 * value according to the setting's tipo, and set() stores a value back as text. The
 * configuracion table is a map from clave to its row.
 */
module Config {
  import opened Wrappers
  import opened Text

  /** A setting's value as get() returns it; a float is kept as its decimal text. */
  datatype ConfigValue =
    | BoolValue(b: bool)
    | IntValue(i: int)
    | TextValue(s: string)
    | FloatText(t: string)

  /** A row of configuracion. */
  datatype Entry = Entry(valor: string, descripcion: string, tipo: string)

  /** The spellings get() reads as true once lower-cased; every other text is false. */
  const TRUE_WORDS: seq<string> := ["true", "1", "si", "yes", "on"]

  /** valor.lower() in ('true', '1', 'si', 'yes', 'on'). */
  predicate ParseBool(valor: string) {
    Lower(valor) in TRUE_WORDS
  }

  /** get(clave, valor_por_defecto): the converted value, or the default when the key is
      missing or int() rejects the text of an integer setting. */
  function Get(store: map<string, Entry>, clave: string, porDefecto: Option<ConfigValue>): Option<ConfigValue> {
    if clave !in store then porDefecto
    else
      var e := store[clave];
      if e.tipo == "boolean" then Some(BoolValue(ParseBool(e.valor)))
      else if e.tipo == "integer" then
        match ParseInt(e.valor)
        case Some(i) => Some(IntValue(i))
        case None => porDefecto
      else if e.tipo == "float" then Some(FloatText(e.valor))
      else Some(TextValue(e.valor))
  }

  /** str(valor).lower() for a bool, str(valor) otherwise. */
  function StoredText(v: ConfigValue): string {
    match v
    case BoolValue(b) => if b then "true" else "false"
    case IntValue(i) => IntToString(i)
    case TextValue(s) => s
    case FloatText(t) => t
  }

  /** The tipo set() gives a new row: 'boolean' for a bool, 'string' for anything else. */
  function NewTipo(v: ConfigValue): string {
    if v.BoolValue? then "boolean" else "string"
  }

  /** set(clave, valor, descripcion): an existing row gets the new text and keeps its tipo and
      descripcion; a new row also gets the given description (or a default one) and NewTipo. */
  function Set(store: map<string, Entry>, clave: string, v: ConfigValue, descripcion: Option<string>): map<string, Entry> {
    if clave in store then store[clave := store[clave].(valor := StoredText(v))]
    else
      var d := if descripcion.Some? && descripcion.value != "" then descripcion.value else "Configuración " + clave;
      store[clave := Entry(StoredText(v), d, NewTipo(v))]
  }

  /** Lower-casing twice is lower-casing once. */
  lemma LowerIdempotent(s: string)
    ensures Lower(Lower(s)) == Lower(s)
  {
    forall i | 0 <= i < |s|
      ensures Lower(Lower(s))[i] == Lower(s)[i]
    {
      var c := s[i];
      assert Lower(s)[i] == LowerChar(c);
      if 'A' <= c <= 'Z' {
        assert 'a' <= LowerChar(c) <= 'z';
      }
    }
  }

  /** The boolean reading ignores case: 'TRUE', 'Yes' and 'On' read as their lower-case forms. */
  lemma ParseBoolIgnoresCase(s: string)
    ensures ParseBool(Lower(s)) == ParseBool(s)
  {
    LowerIdempotent(s);
  }

  /** A boolean written by set() into a boolean (or new) setting reads back unchanged. */
  lemma BoolRoundTrip(store: map<string, Entry>, clave: string, b: bool, descripcion: Option<string>,
                      porDefecto: Option<ConfigValue>)
    requires clave !in store || store[clave].tipo == "boolean"
    ensures Get(Set(store, clave, BoolValue(b), descripcion), clave, porDefecto) == Some(BoolValue(b))
  {
    var text := StoredText(BoolValue(b));
    assert Lower("true") == "true";
    assert Lower("false") == "false";
    assert TRUE_WORDS[0] == "true";
    if !b {
      assert text == "false";
      assert "false" !in TRUE_WORDS by {
        assert |TRUE_WORDS[0]| == 4 && TRUE_WORDS[0][0] == 't';
      }
    }
  }

  /** An integer written by set() into an integer setting reads back unchanged. */
  lemma IntRoundTrip(store: map<string, Entry>, clave: string, i: int, descripcion: Option<string>,
                     porDefecto: Option<ConfigValue>)
    requires clave in store && store[clave].tipo == "integer"
    ensures Get(Set(store, clave, IntValue(i), descripcion), clave, porDefecto) == Some(IntValue(i))
  {
    IntToStringRoundTrip(i);
  }

  /** An integer stored under a new key gets tipo 'string' and is read back as its text. */
  lemma NewIntReadsAsText(store: map<string, Entry>, clave: string, i: int, descripcion: Option<string>,
                          porDefecto: Option<ConfigValue>)
    requires clave !in store
    ensures Get(Set(store, clave, IntValue(i), descripcion), clave, porDefecto) == Some(TextValue(IntToString(i)))
  {
  }

  /** Text written by set() into a text (or new) setting reads back unchanged. */
  lemma TextRoundTrip(store: map<string, Entry>, clave: string, s: string, descripcion: Option<string>,
                      porDefecto: Option<ConfigValue>)
    requires clave !in store || store[clave].tipo !in {"boolean", "integer", "float"}
    ensures Get(Set(store, clave, TextValue(s), descripcion), clave, porDefecto) == Some(TextValue(s))
  {
  }

  /** set() touches one row only: it adds the key and leaves every other setting as it was. */
  lemma SetOnlyTouchesKey(store: map<string, Entry>, clave: string, v: ConfigValue, descripcion: Option<string>,
                          other: string, porDefecto: Option<ConfigValue>)
    requires other != clave
    ensures Set(store, clave, v, descripcion).Keys == store.Keys + {clave}
    ensures Get(Set(store, clave, v, descripcion), other, porDefecto) == Get(store, other, porDefecto)
  {
  }

  /** An existing row keeps its tipo and description under set(). */
  lemma SetKeepsRow(store: map<string, Entry>, clave: string, v: ConfigValue, descripcion: Option<string>)
    requires clave in store
    ensures Set(store, clave, v, descripcion)[clave].tipo == store[clave].tipo
    ensures Set(store, clave, v, descripcion)[clave].descripcion == store[clave].descripcion
    ensures Set(store, clave, v, descripcion)[clave].valor == StoredText(v)
  {
  }

  /** With no default, get() returns nothing exactly for a missing key or an unreadable integer. */
  lemma GetNothingExactly(store: map<string, Entry>, clave: string)
    ensures Get(store, clave, None) == None <==>
            clave !in store || (store[clave].tipo == "integer" && ParseInt(store[clave].valor).None?)
  {
  }
}
