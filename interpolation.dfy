/**
 * Placeholder substitution in `FileLogger::interpolate`: the table built
 * from the context (marker `{key}` => text) is applied to the template with
 * `strtr`, then every newline is removed.
 */
module Interpolation {
  import opened Text
  import opened Context

  /** The message field of a log line for `template` and `context`. */
  function Message(template: string, context: seq<Entry>): (r: string)
    ensures '\n' !in r
  {
    StripNewlines(Translate(template, Split(context).replace))
  }

  /** No context key contains a closing brace (PSR-3 recommends names of letters, digits, `_` and `.`). */
  predicate NoCloseBrace(context: seq<Entry>)
  {
    forall i :: 0 <= i < |context| ==> '}' !in context[i].key
  }

  /** Every key of the substitution table opens with '{'. */
  lemma MarkerKeys(context: seq<Entry>)
    requires DistinctKeys(context)
    ensures forall k | k in Split(context).replace :: k != [] && k[0] == '{'
  {
    PlaceholderTable(context);
  }

  /** A template with no '{' is returned unchanged by the substitution. */
  lemma NoPlaceholderUnchanged(template: string, context: seq<Entry>)
    requires DistinctKeys(context)
    requires '{' !in template
    ensures Translate(template, Split(context).replace) == template
  {
    MarkerKeys(context);
    TranslateLiteral(template, [], Split(context).replace, '{');
    assert template + [] == template;
  }

  /**
   * A `{key}` in the template whose key names a scalar of the context is
   * replaced by that scalar's text, and the inserted text is not scanned
   * again: substitution resumes right after the marker.
   */
  lemma PlaceholderReplaced(context: seq<Entry>, i: int, rest: string)
    requires DistinctKeys(context) && NoCloseBrace(context)
    requires 0 <= i < |context| && RouteOf(context[i]) == ToPlaceholder
    ensures Translate(Marker(context[i].key) + rest, Split(context).replace)
         == TextOf(context[i].value) + Translate(rest, Split(context).replace)
  {
    var table := Split(context).replace;
    var k := Marker(context[i].key);
    PlaceholderTable(context);
    forall n | |k| < n <= |k + rest|
      ensures (k + rest)[..n] !in table
    {
      var t := (k + rest)[..n];
      forall j | 0 <= j < |context| && RouteOf(context[j]) == ToPlaceholder
        ensures t != Marker(context[j].key)
      {
        var other := context[j].key;
        if |Marker(other)| == n {
          assert t[|k| - 1] == '}';
          assert Marker(other)[|k| - 1] == other[|k| - 2];
          assert '}' !in other;
        }
      }
    }
    TranslateKey(k, rest, table);
  }

  /** A prefix of `{name}` + rest is not the marker of a different brace-free key. */
  lemma MarkerNotPrefix(name: string, other: string, rest: string, n: nat)
    requires '}' !in name && '}' !in other && name != other
    requires 0 < n <= |Marker(name) + rest|
    ensures (Marker(name) + rest)[..n] != Marker(other)
  {
    var u := Marker(name);
    var s := u + rest;
    var m := Marker(other);
    if |m| == n {
      if n < |u| {
        assert s[..n][n - 1] == name[n - 2];
      } else if n == |u| {
        assert s[..n] == u;
        MarkerInjective(name, other);
      } else {
        assert s[..n][|u| - 1] == '}';
        assert m[|u| - 1] == other[|u| - 2];
      }
    }
  }

  /** No key of the substitution table is a prefix of an unfilled `{name}` + rest. */
  lemma UnmatchedHasNoKey(context: seq<Entry>, name: string, rest: string)
    requires DistinctKeys(context) && NoCloseBrace(context)
    requires '}' !in name
    requires forall i :: 0 <= i < |context| && RouteOf(context[i]) == ToPlaceholder ==> context[i].key != name
    ensures forall n :: 0 < n <= |Marker(name) + rest| ==> (Marker(name) + rest)[..n] !in Split(context).replace
  {
    PlaceholderTable(context);
    forall n, j | 0 < n <= |Marker(name) + rest| && 0 <= j < |context| && RouteOf(context[j]) == ToPlaceholder
      ensures (Marker(name) + rest)[..n] != Marker(context[j].key)
    {
      MarkerNotPrefix(name, context[j].key, rest, n);
    }
  }

  /**
   * A `{name}` that no scalar of the context fills stays in the message as
   * literal text.
   */
  lemma UnmatchedPlaceholderKept(context: seq<Entry>, name: string, rest: string)
    requires DistinctKeys(context) && NoCloseBrace(context)
    requires '{' !in name && '}' !in name
    requires forall i :: 0 <= i < |context| && RouteOf(context[i]) == ToPlaceholder ==> context[i].key != name
    ensures Translate(Marker(name) + rest, Split(context).replace)
         == Marker(name) + Translate(rest, Split(context).replace)
  {
    var table := Split(context).replace;
    var u := Marker(name);
    var tail := name + "}";
    assert u == "{" + tail && (u + rest)[1..] == tail + rest;
    assert '{' !in tail;
    UnmatchedHasNoKey(context, name, rest);
    TranslateNoKeyAt(u + rest, table);
    MarkerKeys(context);
    TranslateLiteral(tail, rest, table, '{');
  }

  /**
   * The shape of every call in the repository's tests: a template that ends
   * in `{variable}` with that key in the context gives the template's text
   * followed by the value.
   */
  lemma VariableFilled(prefix: string, value: string)
    requires '{' !in prefix && '\n' !in prefix && '\n' !in value
    ensures Message(prefix + "{variable}", [Entry("variable", Scalar(value))]) == prefix + value
  {
    var context := [Entry("variable", Scalar(value))];
    var table := Split(context).replace;
    var marker := Marker("variable");
    assert marker + [] == marker == "{variable}";
    assert Translate(marker, table) == value by {
      PlaceholderReplaced(context, 0, []);
    }
    assert Translate(prefix + marker, table) == prefix + value by {
      MarkerKeys(context);
      TranslateLiteral(prefix, marker, table, '{');
    }
    StripNewlinesKeeps(prefix + value);
  }
}
