/** Rows of one stride, each preceded by its filter type (section 6.2 of RFC 2083). Filter type 0
    leaves a row as it is. What the rows are made of does not matter. */
module Scanlines {
  import opened Integers
  import opened Wrappers

  /** The rows of the data, each preceded by the filter type. */
  function Filtered<T>(filter: T, data: seq<T>, stride: nat, rows: nat): seq<T>
    decreases rows
  {
    if rows == 0 || |data| < stride then []
    else [filter] + data[..stride] + Filtered(filter, data[stride..], stride, rows - 1)
  }

  /** Reading rows back, none of them filtered in any other way. */
  function Unfilter<T(==)>(filter: T, scanlines: seq<T>, stride: nat, rows: nat): Option<seq<T>>
    decreases rows
  {
    if rows == 0 then if scanlines == [] then Some([]) else None
    else if |scanlines| < stride + 1 || scanlines[0] != filter then None
    else match Unfilter(filter, scanlines[stride + 1..], stride, rows - 1)
      case None => None
      case Some(rest) => Some(scanlines[1..stride + 1] + rest)
  }

  lemma OneRowLess(length: nat, stride: nat, rows: nat)
    requires rows > 0 && length == rows * stride
    ensures stride <= length && length - stride == (rows - 1) * stride
  {
    Distributes(rows - 1, 1, stride);
    assert (rows - 1) * stride >= 0;
  }

  lemma FirstRow<T>(filter: T, row: seq<T>, rest: seq<T>)
    ensures var scanlines := [filter] + row + rest;
            scanlines[0] == filter && scanlines[1..|row| + 1] == row && scanlines[|row| + 1..] == rest
  {}

  lemma Rejoin<T>(data: seq<T>, stride: nat)
    requires stride <= |data|
    ensures data[..stride] + data[stride..] == data
  {}

  lemma {:induction false} RowsAreUnfiltered<T>(filter: T, data: seq<T>, stride: nat, rows: nat)
    requires |data| == rows * stride
    ensures Unfilter(filter, Filtered(filter, data, stride, rows), stride, rows) == Some(data)
    decreases rows
  {
    if rows > 0 {
      OneRowLess(|data|, stride, rows);
      RowsAreUnfiltered(filter, data[stride..], stride, rows - 1);
      FirstRow(filter, data[..stride], Filtered(filter, data[stride..], stride, rows - 1));
      Rejoin(data, stride);
    }
  }

  lemma {:induction false} FilteredLength<T>(filter: T, data: seq<T>, stride: nat, rows: nat)
    requires |data| == rows * stride
    ensures |Filtered(filter, data, stride, rows)| == rows * (stride + 1)
    decreases rows
  {
    if rows > 0 {
      OneRowLess(|data|, stride, rows);
      FilteredLength(filter, data[stride..], stride, rows - 1);
      Distributes(rows - 1, 1, stride + 1);
    }
  }

  /** Where everything is: each row starts with the filter type, and its bytes follow. */
  lemma {:induction false} RowIsInPlace<T>(filter: T, data: seq<T>, stride: nat, rows: nat, row: nat, k: nat)
    requires |data| == rows * stride && row < rows && k < stride
    ensures 0 <= row * (stride + 1) && row * (stride + 1) + 1 + k < |Filtered(filter, data, stride, rows)|
    ensures 0 <= row * stride && row * stride + k < |data|
    ensures Filtered(filter, data, stride, rows)[row * (stride + 1)] == filter
    ensures Filtered(filter, data, stride, rows)[row * (stride + 1) + 1 + k] == data[row * stride + k]
    decreases rows
  {
    OneRowLess(|data|, stride, rows);
    var rest := Filtered(filter, data[stride..], stride, rows - 1);
    FirstRow(filter, data[..stride], rest);
    if row > 0 {
      RowIsInPlace(filter, data[stride..], stride, rows - 1, row - 1, k);
      Distributes(row - 1, 1, stride + 1);
      Distributes(row - 1, 1, stride);
      NextRow(filter, data, stride, rest, (row - 1) * (stride + 1), (row - 1) * stride + k, k);
    }
  }

  lemma NextRow<T>(filter: T, data: seq<T>, stride: nat, rest: seq<T>, at: nat, from: nat, k: nat)
    requires stride <= |data| && at + 1 + k < |rest| && from < |data[stride..]|
    ensures ([filter] + data[..stride] + rest)[stride + 1 + at] == rest[at]
    ensures ([filter] + data[..stride] + rest)[stride + 1 + at + 1 + k] == rest[at + 1 + k]
    ensures data[stride + from] == data[stride..][from]
  {}

  /** Write one row where the buffer ends so far; `rest` is what is still to come. */
  method WriteRow<T>(filter: T, scanlines: array<T>, output: nat, row: seq<T>, ghost rest: seq<T>)
    requires output + 1 + |row| + |rest| == scanlines.Length
    modifies scanlines
    ensures scanlines[..output + 1 + |row|] + rest == old(scanlines[..output]) + ([filter] + row + rest)
  {
    scanlines[output] := filter;
    forall k | 0 <= k < |row| {
      scanlines[output + 1 + k] := row[k];
    }
    assert scanlines[..output + 1 + |row|] == old(scanlines[..output]) + ([filter] + row);
  }

  lemma SliceOfRest<T>(data: seq<T>, input: nat, stride: nat)
    requires input + stride <= |data|
    ensures data[input..][..stride] == data[input..input + stride]
    ensures data[input..][stride..] == data[input + stride..]
  {}

  /** The offsets of a row in both buffers advance by a row instead of being multiplied out. */
  method FilterRows<T>(filter: T, data: seq<T>, stride: nat, height: nat) returns (scanlines: array<T>)
    requires |data| == height * stride
    ensures scanlines[..] == Filtered(filter, data, stride, height)
  {
    FilteredLength(filter, data, stride, height);
    scanlines := new T[height * (stride + 1)](_ => filter);
    ghost var rows: nat, rest := height, Filtered(filter, data, stride, height);
    ghost var filtered := rest;
    var row: nat, input: nat, output: nat := 0, 0, 0;
    assert scanlines[..0] + rest == filtered;
    while row < height
      invariant row + rows == height && input <= |data| && output + |rest| == scanlines.Length
      invariant |data[input..]| == rows * stride
      invariant rest == Filtered(filter, data[input..], stride, rows)
      invariant scanlines[..output] + rest == filtered
    {
      OneRowLess(|data[input..]|, stride, rows);
      SliceOfRest(data, input, stride);
      ghost var next := Filtered(filter, data[input + stride..], stride, rows - 1);
      assert rest == [filter] + data[input..input + stride] + next;
      WriteRow(filter, scanlines, output, data[input..input + stride], next);
      rows, rest := rows - 1, next;
      row, input, output := row + 1, input + stride, output + (stride + 1);
    }
    assert rest == [] && scanlines[..output] == scanlines[..];
  }
}
