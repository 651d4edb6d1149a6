# Tag widget state engine

A Dafny model of the state engine inside the `ui-tag` custom element (`Tag` in
`script.js`), with the DOM taken away. The element keeps:

- a pool of available tag ids (`tags`);
- the ids confirmed in this session (`added`);
- the ids its caller declares as already assigned (`assigned`, here `assignedIds`);
- one candidate record under edit (`id`, `name`, `type`).

Observed attributes are its interface. Every write of one runs
`attributeChangedCallback`, which ends by re-gating the confirm and cancel
buttons. What `document.querySelector` does with the `data-target` selector
is the three-valued `target`:

- `Invalid`: it throws. This happens for the initial empty selector and for any invalid one.
- `Missing`: it finds nothing.
- `Found`: it finds the container.

Files and modules:

- `tag_ids.dfy` (`TagIds`): the two string operations on ids. `replace('#', '')`
  deletes only the first `#`. `parseInt(…, 10)` skips leading ECMAScript white
  space, reads an optional sign and a run of decimal digits, and gives NaN
  (`None`) when there are no digits. `NumKey` is the sort key, proved for
  `#<n>` ids and for ids without digits.
- `pool.dfy` (`Pool`): the list operations.
  - `filter` of one id, and of a list of ids in turn.
  - The comparator sort `(a, b) => key(a) - key(b)`, modelled as a stable insertion
    sort. The sort is stated for any key function and used with `NumKey`; it is a
    permutation, stable, and ascending when every key is a number.
  - Reinsertion of an id into the pool.
- `tag.dfy` (`TagElement`): the class `Tag` with the lists, the candidate, the
  button states and the presence of the `data-id`/`data-name`/`data-type`
  attributes, plus one client method for the confirm-then-unassign round trip.
  - `setAttribute` runs the callback synchronously. Writing `data-tags` from
    inside the element re-enters the callback. A `data-assigned` write re-enters it
    once per listed id when the target finds its container. A missing container
    returns before the write, and a throwing selector stops at the first id. The
    `decreases` clauses bound this re-entry.
  - `removeAttribute` of an absent attribute runs no callback. That is why the
    model tracks which candidate attributes are present.

In these cases the model follows what the code does:

- Confirm filters the id out of the pool and appends it to `added` even when
  the target finds nothing. Only the assign move inside it becomes a no-op, so
  the id is never rendered.
- While the target selector is empty or invalid, `querySelector` throws
  instead of the collaborator being skipped.
  - A confirm click aborts before changing anything, and the candidate is not reset.
  - A `data-assigned` write replaces the declared list, then aborts at the first
    listed id. The pool is unfiltered and the buttons are not re-gated.
- `added` is not de-duplicated: confirming the same id twice lists it twice.
- Unassign does not check that the id is currently assigned. It filters `added`
  and reinserts into the pool whatever id it is given.
- The candidate type is whatever text the type input holds (`e.target.value`), not
  a member of the closed type set. The model therefore keeps it as a string. The
  seven `Types` values form the datatype `TagType`, and `'undefined'` is the
  "nothing chosen" sentinel the gating tests against.
- The assign move of a declared id does not touch `added`.

## Model

| member | source | states |
|---|---|---|
| TagIds.RemoveFirst | script.js:89 | an id without `#` is returned unchanged; otherwise the result is exactly one character shorter |
| TagIds.RemoveFirstAt | script.js:89 | the name is the id cut at its first `#` and nowhere else; an id starting with `#` loses exactly that character |
| TagIds.RemoveFirstCount | script.js:89 | exactly one `#` is removed and every other character is kept |
| TagIds.TrimStart | script.js:313 | parseInt's leading white-space skip: a suffix of the input, everything before it white space, and it does not start with white space |
| TagIds.LeadingDigits | script.js:313 | the digits parseInt reads: a prefix of digits that stops at the first non-digit |
| TagIds.TrimStartSkips | script.js:313 | parseInt skips a run of white space in front of text that does not start with white space, and nothing more |
| TagIds.ParseSignedNumeral | script.js:313 | after the white space, an optional `+` or `-` followed by a digit run ended by a non-digit parses to the run's value, negated for `-` |
| TagIds.ParseIntOfSignedNumeral | script.js:313 | white space, then an optional sign, then a digit run ended by a non-digit parses to the run's value, negated for `-` |
| TagIds.ParseIntOfNumeral | script.js:313 | a run of digits followed by a non-digit parses to the value of the run |
| TagIds.ParseIntWithoutDigits | script.js:313 | a string without decimal digits parses to NaN |
| TagIds.KeyOfIssueId | script.js:313-314 | the sort key of `#<n>` followed by any text not starting with a digit is `n` |
| TagIds.KeyOfIdWithoutDigits | script.js:313-314 | an id with no decimal digit has a NaN key |
| Pool.Without | script.js:115 | after `filter(t => t !== x)` no copy of `x` is left, and a pool without `x` is unchanged |
| Pool.WithoutCount | script.js:285 | filtering sets the count of `x` to zero and keeps every other id's count |
| Pool.WithoutConcat | script.js:308 | filtering keeps the relative order of the surviving ids (it distributes over concatenation) |
| Pool.WithoutAllEffect | script.js:333-337 | after filtering each listed id in turn, no listed id is left and every other id keeps its count |
| Pool.InsertByKey | script.js:312-316 | one insertion step of the sort adds exactly the inserted id |
| Pool.SortByKey | script.js:312-316 | the sorted pool is a permutation of the pool |
| Pool.SortByKeyAscending | script.js:312-316 | when every key is a number, the sorted pool is ascending by key |
| Pool.SortByKeyStable | script.js:312-316 | the sort is stable: for every key value, numeric or NaN, the ids with that key keep their input order |
| Pool.SortPool | script.js:312-316 | the insertion-sort loop computes the sort order: a permutation, and ascending when every key is a number |
| Pool.ReinsertSorted | script.js:310-317 | computes the reinsertion: unchanged when present, else appended and re-sorted by NumKey |
| Pool.ReinsertEffect | script.js:310-317 | a present id leaves the pool unchanged (no re-sort); an absent id is added once, the rest is a permutation, and an all-numeric pool comes out ascending |
| Pool.ConfirmThenUnassignLists | script.js:308-317 | filtering `x` out of the pool and reinserting it leaves `x` there exactly once and every other id as before; `x` is gone from the session list |
| TagElement.Gate | script.js:340-349 | each button is enabled exactly when the candidate has an id and a type other than `undefined`, and the cancel button is always enabled |
| TagElement.Tag.constructor | script.js:61-75 | empty lists, an empty candidate with type `undefined`, the empty (throwing) target selector, no attributes present |
| TagElement.Tag.RefreshGating | script.js:340-349 | confirm enabled iff the candidate is ready; cancel enabled |
| TagElement.Assigned | script.js:331-337 | after a `data-assigned` write no listed id is in the pool, unless the target selector throws at the first id and the pool stays as it was |
| TagElement.Tag.AttributeChanged | script.js:324-349 | `data-tags` replaces the pool; `data-assigned` replaces the declared list and filters the listed ids out of the pool; `data-target` replaces the target; nothing else changes; the buttons are re-gated unless the callback aborted |
| TagElement.Tag.AssignListed | script.js:331-337 | the declared list is replaced, and the pool loses every listed id whether or not a container is found; a throwing selector stops the loop at the first id; `added` and the candidate are unchanged |
| TagElement.Tag.SetAttribute | script.js:90-91 | the attribute becomes present and the callback's effect follows |
| TagElement.Tag.RemoveAttribute | script.js:128-130 | the attribute becomes absent; the callback, and so the re-gating, runs only when it was present |
| TagElement.Tag.EditId | script.js:87-91 | the candidate id is the text and its name is the text without its first `#`; the lists are unchanged and the buttons are re-gated |
| TagElement.Tag.EditType | script.js:93-96 | the candidate type is the text; the lists are unchanged and the buttons are re-gated |
| TagElement.Tag.PublishTags | script.js:286 | writing the pool back to `data-tags` changes no list, only re-gates the buttons |
| TagElement.Tag.AssignMove | script.js:264-286 | throws exactly when the target selector is invalid; no change unless the container is found; otherwise the id is filtered out of the pool and only the gating changes besides |
| TagElement.Tag.Cancel | script.js:119-133 | the candidate is empty, no candidate attribute is present, the lists are unchanged; confirm ends disabled unless no attribute was present |
| TagElement.Tag.Confirm | script.js:110-134 | nothing changes when the target selector throws. Otherwise the id is filtered out of the pool and appended once to `added`, even without a container. The candidate is reset and confirm ends disabled |
| TagElement.Tag.Unassign | script.js:303-318 | no change unless the container is found; otherwise the id is filtered out of `added` and reinserted into the pool |
| TagElement.ConfirmThenUnassign | script.js:114-116 | confirm of `x` with the container found, then unassign of `x`, leaves `x` in the pool exactly once, every other pool id as before, and `x` not in `added` |

## Left out

- DOM construction and rendering are not modelled: the inputs, datalists, buttons, tooltip, the rendered tag
  and its remove button, placeholders and input clearing. None of them changes the lists or the candidate.
- `unCheckTheCheckBox`, `renderMarkdown`, `generateRandomDescription` and `getTagDisplayName`
  are not modelled; they only touch the page.
- The candidate's `description` field is display text from `generateRandomDescription` and is left out.
- The random type drawn for each declared id (script.js:334) is left out. It only feeds the rendered tag, so
  the assign move takes just the id. The demo bootstrap that seeds random tags is left out too.
- The JSON internals are not modelled. A list written to `data-tags` or `data-assigned` reaches the
  callback as the same list. Malformed JSON, which makes the callback throw, is not modelled.
- The generic write `this[name.replace('data-', '')] = current` (script.js:325) is left out, apart from
  its effect on the target. That effect is abstracted as the `Target` value the selector yields, and CSS
  selector parsing is not modelled.
  - Writing `data-id` also sets the element's own `id`.
  - Removing an attribute passes `null`.
- TagElement.Tag.Unassign: does not model the throw from `tags.querySelector` (script.js:306) when the id
  cannot be quoted into an attribute selector (for example, it contains `"`). That needs CSS string parsing.
- Pool.SortByKey: the order is claimed only when every key is a number.
  - With a NaN key the comparator is inconsistent and the engine's order is implementation-defined.
  - For those inputs the model fixes one stable insertion order. Its permutation and stability are
    proved, but no ascending order is claimed.
- TagElement.Tag.RemoveAttribute: the model removes a candidate attribute only from inside the element.
  Outside code can call `removeAttribute('data-id')` or `removeAttribute('data-type')` at any time;
  that is not modelled. After such a removal the reset at script.js:128-130 runs no callback for the
  absent attribute, so the confirm button can stay enabled with an empty candidate. `Valid` (and with it
  Confirm's disabled confirm button and Cancel's gating) holds only without such outside removals.
- TagIds.ParseInt: uses exact integers. The double-precision rounding of very long digit runs, and of
  the difference in the comparator, is not modelled.
- The sort is modelled on a sequence value: the in-place mutation of the pool array by `tags.sort`
  is not modelled.
- Event-listener wiring and the custom-element lifecycle are not modelled. Only an enabled button can be
  clicked, which is why Confirm requires the confirm button to be enabled.
