/**
 * The attribute editor: the option list of a selection attribute, emptied
 * when the type is free text, the checks run before saving, and the pending
 * deletion that the confirmation acts on.
 */
module AttributeEditor {
  import opened Wrappers
  import opened Documents
  import Text
  import opened TagList

  /** The two kinds of attribute the form offers. */
  const SelectType := "select"
  const TextType := "text"

  datatype Target = Create | Replace(id: string)

  /** The body of the save request and where it goes. */
  datatype AttributeRequest = AttributeRequest(target: Target, category: string, name: string,
                                               kind: string, options: seq<string>)

  class Editor {
    var currentOptions: seq<string>
    var editingId: Option<string>
    var deleteId: Option<string>

    constructor()
      ensures currentOptions == [] && editingId == None && deleteId == None
    {
      currentOptions := [];
      editingId := None;
      deleteId := None;
    }

    /** `toggleOptionInput` for the type the form shows: free text has no options. */
    method ToggleOptionInput(kind: string)
      modifies this`currentOptions
      ensures currentOptions == if kind == TextType then [] else old(currentOptions)
    {
      if kind == TextType {
        currentOptions := [];
      }
    }

    method AddOptionToList(input: string)
      modifies this`currentOptions
      ensures currentOptions == AddTag(old(currentOptions), input)
    {
      var v := Text.Trim(input);
      if v != "" && v !in currentOptions {
        currentOptions := currentOptions + [v];
      }
    }

    method RemoveOption(option: string)
      modifies this`currentOptions
      ensures currentOptions == RemoveTag(old(currentOptions), option)
    {
      currentOptions := RemoveTag(currentOptions, option);
    }

    /** `editAttribute`: edits the given attribute, starting from a copy of its options (none for free text). */
    method EditAttribute(id: Option<string>, kind: string, options: Option<seq<string>>)
      modifies this`editingId, this`currentOptions
      ensures editingId == id
      ensures currentOptions == if kind == TextType then [] else options.GetOr([])
    {
      editingId := id;
      currentOptions := options.GetOr([]);
      ToggleOptionInput(kind);
    }

    /**
     * `saveFullAttribute`: refuses a missing category or name, and a selection
     * attribute without options; a free-text attribute is saved with none.
     */
    method SaveFullAttribute(category: string, name: string, kind: string)
      returns (res: Result<AttributeRequest, string>)
      ensures res.Err? <==> category == "" || name == "" || (kind == SelectType && currentOptions == [])
      ensures res.Ok? ==>
        && res.value.category == category && res.value.name == name && res.value.kind == kind
        && res.value.options == (if kind == TextType then [] else currentOptions)
        && (kind == SelectType ==> res.value.options != [])
        && res.value.target == (if IsSet(editingId) then Replace(editingId.value) else Create)
    {
      if category == "" || name == "" {
        return Err("Preencha os campos obrigatórios.");
      }
      if kind == SelectType && |currentOptions| == 0 {
        return Err("Adicione opções para a lista de seleção.");
      }
      var target := if IsSet(editingId) then Replace(editingId.value) else Create;
      res := Ok(AttributeRequest(target, category, name, kind, if kind == TextType then [] else currentOptions));
    }

    /** `closeAttrForm`, also run after a successful save; the type goes back to selection, which keeps the emptied list. */
    method CloseAttrForm()
      modifies this`editingId, this`currentOptions
      ensures editingId == None && currentOptions == []
    {
      editingId := None;
      currentOptions := [];
      ToggleOptionInput(SelectType);
    }

    method AskDelete(id: string)
      modifies this`deleteId
      ensures deleteId == Some(id)
    {
      deleteId := Some(id);
    }

    /** `closeConfirm`: "yes" with a pending id asks for its deletion; the pending id is cleared either way. */
    method CloseConfirm(confirmed: bool) returns (deleted: Option<string>)
      modifies this`deleteId
      ensures deleted == if confirmed && IsSet(old(deleteId)) then old(deleteId) else None
      ensures deleteId == None
    {
      deleted := if confirmed && IsSet(deleteId) then deleteId else None;
      deleteId := None;
    }
  }
}
