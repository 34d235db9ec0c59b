/** The PIN entry boxes: one single-digit cell per PIN character, a focused
    cell, and the typing, key, paste and error handlers that update them. */
module PinInput {
  import opened Wrappers
  import opened Text

  const DefaultLength: nat := 4

  /** A cell holds nothing or one digit. */
  predicate Cell(v: string) {
    v == [] || (|v| == 1 && IsDigit(v[0]))
  }

  /** The component's state: `values` and `focusedIndex`. */
  datatype Pins = Pins(values: seq<string>, focusedIndex: int)

  /** What every handler keeps: each cell empty or one digit, and the focus on
      a cell (or at 0 when there are no cells). */
  predicate WellFormed(p: Pins) {
    && (forall i :: 0 <= i < |p.values| ==> Cell(p.values[i]))
    && 0 <= p.focusedIndex && (p.focusedIndex < |p.values| || p.focusedIndex == 0)
  }

  /** `Array(length).fill('')` with the first cell focused. */
  function Initial(length: nat): (p: Pins)
    ensures |p.values| == length && WellFormed(p)
    ensures forall i :: 0 <= i < length ==> p.values[i] == []
  {
    Pins(seq(length, _ => []), 0)
  }

  /** `value.slice(-1)`: the last character, or nothing. */
  function LastChar(value: string): (r: string)
    ensures value == [] ==> r == []
    ensures value != [] ==> r == [value[|value| - 1]]
  {
    if value == [] then [] else value[|value| - 1..]
  }

  /** `values.every((v) => v)`: no cell is empty. */
  predicate Filled(values: seq<string>) {
    forall i :: 0 <= i < |values| ==> values[i] != []
  }

  /** `values.join('')`. */
  function Joined(values: seq<string>): string {
    Join(values, "")
  }

  /** The PIN handed to `onComplete` by `handleChange`: all cells filled and
      the joined text as long as the PIN. */
  function ChangeCompletion(values: seq<string>): Option<string> {
    if Filled(values) && |Joined(values)| == |values| then Some(Joined(values)) else None
  }

  /** `handleChange(index, value)`: digits only; the cell keeps the last
      character typed; focus advances after a non-empty input unless this is
      the last cell. */
  function Change(p: Pins, index: nat, value: string): (Pins, Option<string>)
    requires index < |p.values|
  {
    if !AllDigits(value) then (p, None)
    else
      var values := p.values[index := LastChar(value)];
      var focus := if value != [] && index < |p.values| - 1 then index + 1 else p.focusedIndex;
      (Pins(values, focus), ChangeCompletion(values))
  }

  /** `handleKeyDown(index, key)`. */
  function KeyDown(p: Pins, index: nat, key: string): Pins
    requires index < |p.values|
  {
    if key == "Backspace" then
      if p.values[index] == [] && index > 0 then p.(focusedIndex := index - 1)
      else p.(values := p.values[index := []])
    else if key == "ArrowLeft" && index > 0 then p.(focusedIndex := index - 1)
    else if key == "ArrowRight" && index < |p.values| - 1 then p.(focusedIndex := index + 1)
    else p
  }

  /** `replace(/\D/g, '')`: the digits of `s`, in order. */
  function DigitsOnly(s: string): (r: string)
    ensures AllDigits(r) && |r| <= |s|
    ensures forall c :: c in r <==> c in s && IsDigit(c)
    ensures |s| == 1 ==> r == if IsDigit(s[0]) then s else []
  {
    if s == [] then []
    else
      var rest := DigitsOnly(s[1..]);
      assert s == [s[0]] + s[1..];
      if IsDigit(s[0]) then [s[0]] + rest else rest
  }

  /** Stripping a concatenation strips each part in turn: the digits keep
      their order and their repetitions. */
  lemma {:induction false} DigitsOnlyAppend(a: string, b: string)
    ensures DigitsOnly(a + b) == DigitsOnly(a) + DigitsOnly(b)
  {
    if a == [] {
      assert a + b == b;
    } else {
      assert (a + b)[1..] == a[1..] + b;
      assert (a + b)[0] == a[0];
      DigitsOnlyAppend(a[1..], b);
    }
  }

  /** `slice(0, n)`. */
  function Take(s: string, n: nat): (r: string)
    ensures |r| <= n && |r| <= |s| && r == s[..|r|]
    ensures |s| >= n ==> |r| == n
    ensures |s| < n ==> r == s
  {
    if |s| <= n then s else s[..n]
  }

  /** The digits a paste puts into the cells. */
  function Pasted(text: string, length: nat): (d: string)
    ensures AllDigits(d) && |d| <= length
  {
    Take(DigitsOnly(text), length)
  }

  /** The cells after the paste loop: the first `|d|` cells hold the pasted
      digits, the rest are kept. */
  function Overwrite(values: seq<string>, d: string): (r: seq<string>)
    ensures |r| == |values|
    ensures forall i :: 0 <= i < |values| ==> r[i] == if i < |d| then [d[i]] else values[i]
  {
    seq(|values|, i requires 0 <= i < |values| => if i < |d| then [d[i]] else values[i])
  }

  /** `Math.min(a, b)`. */
  function Min(a: int, b: int): int {
    if a <= b then a else b
  }

  /** `handlePaste(text)`. */
  function Paste(p: Pins, text: string): (Pins, Option<string>) {
    var d := Pasted(text, |p.values|);
    if d == [] then (p, None)
    else
      var values := Overwrite(p.values, d);
      (Pins(values, Min(|d| - 1, |p.values| - 1)), if Filled(values) then Some(Joined(values)) else None)
  }

  /** `handleFocus(index)`. */
  function Focus(p: Pins, index: nat): Pins
    requires index < |p.values|
  {
    p.(focusedIndex := index)
  }

  /** The effect on `[error, length]`: a non-empty error message clears every
      cell and focuses the first one. */
  function OnError(p: Pins, error: Option<string>): Pins {
    if error.Some? && error.value != [] then Initial(|p.values|) else p
  }

  /** The component's state and handlers. The `onComplete` callback is the
      PIN a handler returns, `None` when it does not call it. */
  class PinInputState {
    var values: seq<string>
    var focusedIndex: int

    function State(): Pins
      reads this
    {
      Pins(values, focusedIndex)
    }

    constructor(length: nat)
      ensures State() == Initial(length)
    {
      values := seq(length, _ => []);
      focusedIndex := 0;
    }

    method HandleChange(index: nat, value: string) returns (completed: Option<string>)
      requires index < |values|
      modifies this
      ensures (State(), completed) == Change(old(State()), index, value)
    {
      if !AllDigits(value) {
        return None;
      }
      var newValues := values;
      newValues := newValues[index := LastChar(value)];
      values := newValues;
      if value != [] && index < |values| - 1 {
        focusedIndex := index + 1;
      }
      completed := None;
      if Filled(newValues) && |Joined(newValues)| == |values| {
        completed := Some(Joined(newValues));
      }
    }

    method HandleKeyDown(index: nat, key: string)
      requires index < |values|
      modifies this
      ensures State() == KeyDown(old(State()), index, key)
    {
      if key == "Backspace" {
        if values[index] == [] && index > 0 {
          focusedIndex := index - 1;
        } else {
          var newValues := values;
          newValues := newValues[index := []];
          values := newValues;
        }
      } else if key == "ArrowLeft" && index > 0 {
        focusedIndex := index - 1;
      } else if key == "ArrowRight" && index < |values| - 1 {
        focusedIndex := index + 1;
      }
    }

    method HandlePaste(text: string) returns (completed: Option<string>)
      modifies this
      ensures (State(), completed) == Paste(old(State()), text)
    {
      var length := |values|;
      var pastedData := Pasted(text, length);
      if pastedData == [] {
        return None;
      }
      var newValues := values;
      for i := 0 to |pastedData|
        invariant |newValues| == length
        invariant forall m :: 0 <= m < length ==> newValues[m] == if m < i then [pastedData[m]] else values[m]
      {
        if i < length {
          newValues := newValues[i := [pastedData[i]]];
        }
      }
      assert newValues == Overwrite(values, pastedData);
      values := newValues;
      focusedIndex := Min(|pastedData| - 1, length - 1);
      completed := None;
      if Filled(newValues) {
        completed := Some(Joined(newValues));
      }
    }

    method HandleFocus(index: nat)
      requires index < |values|
      modifies this
      ensures State() == Focus(old(State()), index)
    {
      focusedIndex := index;
    }

    method ErrorChanged(error: Option<string>)
      modifies this
      ensures State() == OnError(old(State()), error)
    {
      if error.Some? && error.value != [] {
        values := seq(|values|, _ => []);
        focusedIndex := 0;
      }
    }
  }

  // ---------------------------------------------------------------------
  // Properties

  /** Joining single-digit cells: the text is as long as the cells only when
      every cell is filled, and then its characters are the cells' digits. */
  lemma {:induction false} JoinedCells(values: seq<string>)
    requires forall i :: 0 <= i < |values| ==> Cell(values[i])
    ensures AllDigits(Joined(values)) && |Joined(values)| <= |values|
    ensures |Joined(values)| == |values| <==> Filled(values)
    ensures Filled(values) ==> forall i :: 0 <= i < |values| ==> Joined(values)[i] == values[i][0]
  {
    if |values| > 1 {
      var rest := values[1..];
      JoinedCells(rest);
      assert Joined(values) == values[0] + Joined(rest);
      if !Filled(values) && values[0] != [] {
        var j :| 0 <= j < |values| && values[j] == [];
        assert rest[j - 1] == [];
      }
      if Filled(values) {
        forall i | 0 <= i < |values|
          ensures Joined(values)[i] == values[i][0]
        {
          if i > 0 {
            assert values[i] == rest[i - 1];
          }
        }
      }
    }
  }

  /** Typing anything but digits changes nothing and completes nothing. */
  lemma NonDigitIgnored(p: Pins, index: nat, value: string)
    requires index < |p.values| && !AllDigits(value)
    ensures Change(p, index, value) == (p, None)
  {
  }

  /** Typing digits stores the last one in the cell and leaves the other
      cells alone; focus moves one cell on after a non-empty input, except
      from the last cell. */
  lemma ChangeKeepsLastDigit(p: Pins, index: nat, value: string)
    requires WellFormed(p) && index < |p.values| && AllDigits(value)
    ensures var q := Change(p, index, value).0;
      && WellFormed(q) && |q.values| == |p.values|
      && q.values[index] == (if value == [] then [] else [value[|value| - 1]])
      && (forall i :: 0 <= i < |p.values| && i != index ==> q.values[i] == p.values[i])
      && q.focusedIndex == (if value != [] && index < |p.values| - 1 then index + 1 else p.focusedIndex)
  {
  }

  /** `handleChange` calls `onComplete` exactly when every cell is filled,
      with the PIN whose digits are the cells' digits. */
  lemma ChangeCompletesIffFilled(p: Pins, index: nat, value: string)
    requires WellFormed(p) && index < |p.values| && AllDigits(value)
    ensures var (q, done) := Change(p, index, value);
      && (done.Some? <==> Filled(q.values))
      && (done.Some? ==> AllDigits(done.value) && |done.value| == |q.values|
                         && forall i :: 0 <= i < |q.values| ==> done.value[i] == q.values[i][0])
  {
    var q := Change(p, index, value).0;
    assert forall i :: 0 <= i < |q.values| ==> Cell(q.values[i]);
    JoinedCells(q.values);
  }

  /** Backspace on an empty cell after the first only moves focus back;
      otherwise it clears the cell and keeps the focus. */
  lemma BackspaceRule(p: Pins, index: nat)
    requires WellFormed(p) && index < |p.values|
    ensures var q := KeyDown(p, index, "Backspace");
      && WellFormed(q)
      && (p.values[index] == [] && index > 0 ==> q == Pins(p.values, index - 1))
      && (p.values[index] != [] || index == 0 ==> q == Pins(p.values[index := []], p.focusedIndex))
  {
  }

  /** The arrow keys move focus one cell and never off the row; any key
      keeps the state well formed. */
  lemma ArrowsStayInRow(p: Pins, index: nat, key: string)
    requires WellFormed(p) && index < |p.values|
    ensures WellFormed(KeyDown(p, index, key))
    ensures key == "ArrowLeft" ==>
      KeyDown(p, index, key).focusedIndex == (if index > 0 then index - 1 else p.focusedIndex)
    ensures key == "ArrowRight" ==>
      KeyDown(p, index, key).focusedIndex == (if index < |p.values| - 1 then index + 1 else p.focusedIndex)
    ensures key == "ArrowLeft" || key == "ArrowRight" ==> KeyDown(p, index, key).values == p.values
  {
  }

  /** Stripping non-digits keeps a string of digits and is idempotent. */
  lemma {:induction false} DigitsOnlyKeepsDigits(s: string)
    ensures AllDigits(s) ==> DigitsOnly(s) == s
    ensures DigitsOnly(DigitsOnly(s)) == DigitsOnly(s)
  {
    if s != [] {
      DigitsOnlyKeepsDigits(s[1..]);
      var rest := DigitsOnly(s[1..]);
      if IsDigit(s[0]) {
        assert ([s[0]] + rest)[1..] == rest;
      }
    }
  }

  /** A paste without digits changes nothing; otherwise its first `length`
      digits overwrite that many leading cells, the rest are kept, and the
      last written cell gets the focus. */
  lemma PasteOverwritesPrefix(p: Pins, text: string)
    requires WellFormed(p)
    ensures var d := Pasted(text, |p.values|);
      var q := Paste(p, text).0;
      && (d == [] ==> Paste(p, text) == (p, None))
      && (d != [] ==>
            && WellFormed(q) && |q.values| == |p.values|
            && (forall i :: 0 <= i < |d| ==> q.values[i] == [d[i]])
            && (forall i :: |d| <= i < |p.values| ==> q.values[i] == p.values[i])
            && q.focusedIndex == |d| - 1)
  {
  }

  /** `handlePaste` calls `onComplete` exactly when the cells are all
      filled afterwards, with the cells' digits; a paste of at least
      `length` digits always completes, with exactly those digits. */
  lemma PasteCompletesIffFilled(p: Pins, text: string)
    requires WellFormed(p)
    ensures var (q, done) := Paste(p, text);
      && (done.Some? <==> Pasted(text, |p.values|) != [] && Filled(q.values))
      && (done.Some? ==> |done.value| == |q.values|
                         && forall i :: 0 <= i < |q.values| ==> done.value[i] == q.values[i][0])
    ensures |DigitsOnly(text)| >= |p.values| > 0 ==> Paste(p, text).1 == Some(DigitsOnly(text)[..|p.values|])
  {
    var d := Pasted(text, |p.values|);
    if d != [] {
      var q := Paste(p, text).0;
      assert forall i :: 0 <= i < |q.values| ==> Cell(q.values[i]);
      JoinedCells(q.values);
      if |DigitsOnly(text)| >= |p.values| {
        assert Filled(q.values);
        assert Joined(q.values) == d;
      }
    }
  }

  /** A non-empty error message clears every cell and focuses the first;
      no message, or an empty one, changes nothing. */
  lemma ErrorResets(p: Pins, error: Option<string>)
    ensures error.Some? && error.value != [] ==>
      && WellFormed(OnError(p, error)) && OnError(p, error).focusedIndex == 0
      && |OnError(p, error).values| == |p.values|
      && forall i :: 0 <= i < |p.values| ==> OnError(p, error).values[i] == []
    ensures error.None? || error.value == [] ==> OnError(p, error) == p
  {
  }

  /** Focusing a cell keeps the state well formed. */
  lemma FocusKeepsWellFormed(p: Pins, index: nat)
    requires WellFormed(p) && index < |p.values|
    ensures WellFormed(Focus(p, index)) && Focus(p, index).focusedIndex == index && Focus(p, index).values == p.values
  {
  }
}
