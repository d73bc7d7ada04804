/** The text box of the wheel (src/app/input-panel/input-panel.component.ts):
    the text the user types is parsed and becomes the service's option
    list. */
module InputPanel {
  import Service

  /** The text the panel starts with. */
  const DefaultText: string := "Option 1, Option 2, Option 3"

  /** The text "Add sample options" puts in the box. */
  const SampleText: string := "Pizza\nBurger\nSushi\nTacos\nPasta"

  const SampleOptions: seq<string> := ["Pizza", "Burger", "Sushi", "Tacos", "Pasta"]

  /** The default text describes the service's own initial options, so the
      panel's first update leaves the wheel as the service started it. */
  lemma DefaultTextGivesInitialOptions()
    ensures Service.ParseInput(DefaultText) == Service.InitialOptions
  {
    var xs, seps := Service.InitialOptions, [", ", ", "];
    InitialOptionsAreClean();
    CommaSpaceIsSeparator();
    DefaultTextIsInterleaved();
    Service.ParseInterleave(xs, seps);
  }

  lemma InitialOptionsAreClean()
    ensures forall i :: 0 <= i < |Service.InitialOptions| ==> Service.IsCleanItem(Service.InitialOptions[i])
  {
    forall i | 0 <= i < |Service.InitialOptions| ensures Service.IsCleanItem(Service.InitialOptions[i]) {
      OptionWordIsClean(Service.InitialOptions[i][7]);
    }
  }

  lemma CommaSpaceIsSeparator()
    ensures Service.IsSeparator(", ")
  {
    assert ", "[0] == ',' && ", "[1..] == " ";
  }

  lemma DefaultTextIsInterleaved()
    ensures Service.Interleave(Service.InitialOptions, [", ", ", "]) == DefaultText
  {
    Service.InterleaveCons("Option 2", ["Option 3"], ", ", []);
    Service.InterleaveCons("Option 1", ["Option 2", "Option 3"], ", ", [", "]);
    assert Service.InitialOptions == ["Option 1"] + ["Option 2", "Option 3"];
  }

  lemma OptionWordIsClean(d: char)
    requires d == '1' || d == '2' || d == '3'
    ensures Service.IsCleanItem("Option " + [d])
  {
  }

  /** The sample text is five options, one per line. */
  lemma SampleTextGivesSampleOptions()
    ensures Service.ParseInput(SampleText) == SampleOptions
  {
    SampleOptionsAreClean();
    assert Service.IsSeparator("\n");
    SampleTextIsInterleaved();
    Service.ParseInterleave(SampleOptions, ["\n", "\n", "\n", "\n"]);
  }

  lemma SampleOptionsAreClean()
    ensures forall i :: 0 <= i < |SampleOptions| ==> Service.IsCleanItem(SampleOptions[i])
  {
    assert Service.IsCleanItem("Pizza");
    assert Service.IsCleanItem("Burger");
    assert Service.IsCleanItem("Sushi");
    assert Service.IsCleanItem("Tacos");
    assert Service.IsCleanItem("Pasta");
  }

  lemma SampleTextIsInterleaved()
    ensures Service.Interleave(SampleOptions, ["\n", "\n", "\n", "\n"]) == SampleText
  {
    var nl := "\n";
    SampleTailIsInterleaved();
    Service.InterleaveCons("Burger", ["Sushi", "Tacos", "Pasta"], nl, [nl, nl]);
    Service.InterleaveCons("Pizza", ["Burger", "Sushi", "Tacos", "Pasta"], nl, [nl, nl, nl]);
    assert SampleOptions == ["Pizza"] + ["Burger", "Sushi", "Tacos", "Pasta"];
  }

  lemma SampleTailIsInterleaved()
    ensures Service.Interleave(["Sushi", "Tacos", "Pasta"], ["\n", "\n"]) == "Sushi\nTacos\nPasta"
  {
    var nl := "\n";
    Service.InterleaveCons("Tacos", ["Pasta"], nl, []);
    Service.InterleaveCons("Sushi", ["Tacos", "Pasta"], nl, [nl]);
  }

  class InputPanelComponent {
    const wheelService: Service.WheelService
    var inputText: string

    ghost predicate Valid()
      reads this, wheelService
    {
      wheelService.Valid()
    }

    /** The panel takes the shared service and pushes its default text to
        it. */
    constructor (service: Service.WheelService)
      requires service.Valid()
      modifies service
      ensures Valid() && wheelService == service
      ensures inputText == DefaultText
      ensures service.options == Service.InitialOptions && service.winner == Service.None
      ensures service.isSpinning == old(service.isSpinning) && service.rotation == old(service.rotation)
      ensures service.showConfetti == old(service.showConfetti)
      ensures service.shouldRemoveWinner == old(service.shouldRemoveWinner)
    {
      wheelService := service;
      inputText := DefaultText;
      new;
      UpdateOptions();
      DefaultTextGivesInitialOptions();
    }

    /** updateOptions: the wheel shows exactly the items of the text. */
    method UpdateOptions()
      requires Valid()
      modifies wheelService
      ensures Valid()
      ensures wheelService.options == Service.ParseInput(inputText) && wheelService.winner == Service.None
      ensures wheelService.isSpinning == old(wheelService.isSpinning)
      ensures wheelService.rotation == old(wheelService.rotation)
      ensures wheelService.showConfetti == old(wheelService.showConfetti)
      ensures wheelService.shouldRemoveWinner == old(wheelService.shouldRemoveWinner)
    {
      var parsed := Service.ParseInput(inputText);
      wheelService.SetOptions(parsed);
      Service.ParsedAreKept(inputText);
    }

    /** onInputChange: called after the text changed; it re-parses it. */
    method OnInputChange()
      requires Valid()
      modifies wheelService
      ensures Valid()
      ensures wheelService.options == Service.ParseInput(inputText) && wheelService.winner == Service.None
      ensures wheelService.isSpinning == old(wheelService.isSpinning)
      ensures wheelService.rotation == old(wheelService.rotation)
      ensures wheelService.showConfetti == old(wheelService.showConfetti)
      ensures wheelService.shouldRemoveWinner == old(wheelService.shouldRemoveWinner)
    {
      UpdateOptions();
    }

    /** clearInput: an empty box and an empty wheel, which is also what
        parsing the empty box gives. */
    method ClearInput()
      requires Valid()
      modifies this, wheelService
      ensures Valid()
      ensures inputText == "" && wheelService.options == [] && wheelService.winner == Service.None
      ensures wheelService.options == Service.ParseInput(inputText)
      ensures wheelService.isSpinning == old(wheelService.isSpinning)
      ensures wheelService.rotation == old(wheelService.rotation)
      ensures wheelService.showConfetti == old(wheelService.showConfetti)
      ensures wheelService.shouldRemoveWinner == old(wheelService.shouldRemoveWinner)
    {
      inputText := "";
      wheelService.SetOptions([]);
      Service.ParseEmpty();
    }

    /** addSampleOptions: the sample text, and its five options on the
        wheel. */
    method AddSampleOptions()
      requires Valid()
      modifies this, wheelService
      ensures Valid()
      ensures inputText == SampleText && wheelService.options == SampleOptions
      ensures wheelService.winner == Service.None
      ensures wheelService.isSpinning == old(wheelService.isSpinning)
      ensures wheelService.rotation == old(wheelService.rotation)
      ensures wheelService.showConfetti == old(wheelService.showConfetti)
      ensures wheelService.shouldRemoveWinner == old(wheelService.shouldRemoveWinner)
    {
      inputText := SampleText;
      UpdateOptions();
      SampleTextGivesSampleOptions();
    }
  }
}
